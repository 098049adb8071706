// What one packet, one proc command or one rule change does to a recent_table.
module MatchModel {
  import opened Seqs
  import opened Jiffies
  import opened TableModel
  import R = Ring

  /** The check_set bits; unknown stands for any bit outside XT_RECENT_VALID_FLAGS. */
  datatype Flags = Flags(check: bool, update: bool, set_: bool, remove: bool, ttl: bool, reap: bool, unknown: bool)

  datatype Rule = Rule(name: string, flags: Flags, seconds: nat, hitCount: nat, invert: bool)

  const MAX_NSTAMPS := 256
  const NAME_LEN := 200

  function Bit(b: bool): nat {
    if b then 1 else 0
  }

  /** The argument checks of recent_mt_check. */
  predicate Accepted(rule: Rule) {
    var f := rule.flags;
    && !f.unknown
    && Bit(f.check) + Bit(f.update) + Bit(f.set_) + Bit(f.remove) == 1
    && (f.set_ || f.remove ==> rule.seconds == 0 && rule.hitCount == 0 && !f.ttl && !f.reap)
    && (f.reap ==> rule.seconds != 0)
    && rule.hitCount < MAX_NSTAMPS
    && 0 < |rule.name| < NAME_LEN
  }

  /** What kmalloc returned: nothing, or the entry at p over memory with arbitrary contents. */
  datatype Alloc<P> = NoMemory | Memory(p: P, contents: seq<Stamp>)

  /** hotdrop: no memory for a new entry.  outside: reap read before the stamps of an entry.
      dangling: the call went on to update an entry that its own reap had freed. */
  datatype Outcome<P> = Outcome(table: Table<P>, verdict: bool, hotdrop: bool, outside: bool, dangling: bool)

  /** A new entry in memory whose previous contents are arbitrary. */
  function NewEntry(key: Key, ttl: nat, memory: seq<Stamp>, s: Stamp): Entry
    requires memory != []
  {
    Entry(key, ttl, R.Start(memory, s))
  }

  /** The loop over the stamps of a found entry. */
  predicate HitBy(rule: Rule, e: Entry, cutoff: Stamp)
    requires e.ring.nstamps <= |e.ring.slots|
  {
    R.Hits(R.Visible(e.ring), cutoff, rule.seconds) >= R.Need(rule.hitCount)
  }

  /** An allocation made for table t. */
  ghost predicate Fits<P>(alloc: Alloc<P>, t: Table<P>) {
    alloc.Memory? ==> alloc.p !in t.store && |alloc.contents| == t.mask + 1
  }

  /** recent_entry_init, which evicts before it allocates. */
  function Init<P(==)>(t: Table<P>, cfg: Config, key: Key, ttl: nat, s: Stamp, alloc: Alloc<P>): Table<P>
    requires Linked(t, cfg) && Fits(alloc, t)
  {
    if alloc.NoMemory? then MakeRoom(t, cfg) else Insert(t, cfg, alloc.p, NewEntry(key, ttl, alloc.contents, s))
  }

  /** CHECK and UPDATE on a found entry. */
  function TestFound<P(==)>(t: Table<P>, cfg: Config, rule: Rule, q: P, ttl: nat, now: Stamp): Outcome<P>
    requires Valid(t, cfg) && q in t.store
  {
    var cutoff := Cutoff(now, Span(rule.seconds, cfg.hz));
    var verdict := HitBy(rule, t.store[q], cutoff) != rule.invert;
    var u := if rule.flags.reap then Reap(t, cfg, cutoff) else t;
    var outside := rule.flags.reap && Outside(t);
    ReapValid(t, cfg, cutoff, rule.flags.reap);
    if rule.flags.update && verdict then
      if q in u.store then Outcome(Touch(u, cfg, q, now, ttl), verdict, false, outside, false)
      else Outcome(u, verdict, false, outside, true)
    else Outcome(u, verdict, false, outside, false)
  }

  function MatchFound<P(==)>(t: Table<P>, cfg: Config, rule: Rule, q: P, ttl: nat, now: Stamp): Outcome<P>
    requires Valid(t, cfg) && q in t.store
  {
    if rule.flags.set_ then Outcome(Touch(t, cfg, q, now, ttl), !rule.invert, false, false, false)
    else if rule.flags.remove then Outcome(Remove(t, cfg, q), !rule.invert, false, false, false)
    else TestFound(t, cfg, rule, q, ttl, now)
  }

  /** recent_mt for a masked address. */
  function Match<P(==)>(t: Table<P>, cfg: Config, rule: Rule, key: Key, ttl: nat, now: Stamp, alloc: Alloc<P>): Outcome<P>
    requires Valid(t, cfg) && Accepted(rule) && Fits(alloc, t)
  {
    match Lookup(t, cfg, key, if rule.flags.ttl then ttl else 0)
    case Some(q) => MatchFound(t, cfg, rule, q, ttl, now)
    case None =>
      if rule.flags.set_ then Outcome(Init(t, cfg, key, ttl, now, alloc), !rule.invert, alloc.NoMemory?, false, false)
      else Outcome(t, rule.invert, false, false, false)
  }

  lemma ReapValid<P>(t: Table<P>, cfg: Config, cutoff: Stamp, reap: bool)
    requires Valid(t, cfg) && (reap ==> t.lru != [])
    ensures reap ==> Valid(Reap(t, cfg, cutoff), cfg)
  {
    if reap {
      RemoveValid(t, cfg, t.lru[0]);
    }
  }

  lemma InitValid<P>(t: Table<P>, cfg: Config, key: Key, ttl: nat, s: Stamp, alloc: Alloc<P>)
    requires Valid(t, cfg) && 0 < cfg.listTot && Fits(alloc, t)
    ensures Valid(Init(t, cfg, key, ttl, s, alloc), cfg)
  {
    var room := MakeRoom(t, cfg);
    if t.entries >= cfg.listTot && t.lru != [] {
      RemoveValid(t, cfg, t.lru[0]);
    }
    if alloc.Memory? {
      AppendValid(room, cfg, alloc.p, NewEntry(key, ttl, alloc.contents, s));
    }
  }

  lemma FoundValid<P>(t: Table<P>, cfg: Config, rule: Rule, q: P, ttl: nat, now: Stamp)
    requires Valid(t, cfg) && q in t.store
    ensures Valid(MatchFound(t, cfg, rule, q, ttl, now).table, cfg)
  {
    if rule.flags.set_ {
      TouchValid(t, cfg, q, now, ttl);
    } else if rule.flags.remove {
      RemoveValid(t, cfg, q);
    } else {
      var cutoff := Cutoff(now, Span(rule.seconds, cfg.hz));
      var u := if rule.flags.reap then Reap(t, cfg, cutoff) else t;
      ReapValid(t, cfg, cutoff, rule.flags.reap);
      if q in u.store {
        TouchValid(u, cfg, q, now, ttl);
      }
    }
  }

  /** Every packet keeps the representation invariant. */
  lemma MatchValid<P>(t: Table<P>, cfg: Config, rule: Rule, key: Key, ttl: nat, now: Stamp, alloc: Alloc<P>)
    requires Valid(t, cfg) && Accepted(rule)
    requires 0 < cfg.listTot && Fits(alloc, t)
    ensures Valid(Match(t, cfg, rule, key, ttl, now, alloc).table, cfg)
  {
    match Lookup(t, cfg, key, if rule.flags.ttl then ttl else 0)
    case None => InitValid(t, cfg, key, ttl, now, alloc);
    case Some(q) => FoundValid(t, cfg, rule, q, ttl, now);
  }

  // ---------------------------------------------------------------------------
  // Where reap leaves the array

  lemma OutsideMeans<P>(t: Table<P>, cfg: Config, rule: Rule, key: Key, ttl: nat, now: Stamp, alloc: Alloc<P>)
    requires Valid(t, cfg) && Accepted(rule) && Fits(alloc, t)
    ensures Match(t, cfg, rule, key, ttl, now, alloc).outside
            <==> rule.flags.reap && Lookup(t, cfg, key, if rule.flags.ttl then ttl else 0).Some? && Outside(t)
  {
    hide Valid, Lookup, Reap, Touch, HitBy, Cutoff, Span, Outside, Remove, Init;
  }

  lemma HeadOutside<P>(t: Table<P>, cfg: Config, h: seq<Stamp>)
    requires Valid(t, cfg) && t.lru != [] && R.Holds(t.store[t.lru[0]].ring, h, t.mask + 1)
    ensures Outside(t) <==> t.mask == 255 && |h| % 256 == 0
  {
    R.IndexZero(t.store[t.lru[0]].ring, h, t.mask + 1);
    hide R.Holds;
  }

  /** Reap reads before the stamps exactly if the entry used longest ago sits in a 256-slot ring and has been
      stamped a positive multiple of 256 times, whatever the packet's own address is. */
  lemma OutsideExactly<P>(t: Table<P>, cfg: Config, rule: Rule, key: Key, ttl: nat, now: Stamp, alloc: Alloc<P>, h: seq<Stamp>)
    requires Valid(t, cfg) && Accepted(rule) && Fits(alloc, t)
    requires t.lru != [] && R.Holds(t.store[t.lru[0]].ring, h, t.mask + 1)
    ensures Match(t, cfg, rule, key, ttl, now, alloc).outside
            <==> rule.flags.reap && Lookup(t, cfg, key, if rule.flags.ttl then ttl else 0).Some? && t.mask == 255 && |h| % 256 == 0
  {
    hide *;
    OutsideMeans(t, cfg, rule, key, ttl, now, alloc);
    HeadOutside(t, cfg, h);
  }

  /** The table after one address has been stamped with h. */
  function Single<P(==)>(cfg: Config, mask: nat, p: P, key: Key, memory: seq<Stamp>, h: seq<Stamp>): Table<P>
    requires h != [] && |memory| == mask + 1 <= 256 && R.PowerOfTwo(mask + 1)
  {
    Append(Empty(cfg, mask), cfg, p, Entry(key, 0, R.Filled(memory, h)))
  }

  lemma SingleValid<P>(cfg: Config, mask: nat, p: P, key: Key, memory: seq<Stamp>, h: seq<Stamp>)
    requires h != [] && |memory| == mask + 1 <= 256 && R.PowerOfTwo(mask + 1) && 0 < cfg.listTot
    ensures var t := Single(cfg, mask, p, key, memory, h);
            && Valid(t, cfg) && t.lru == [p] && p in t.store && R.Holds(t.store[p].ring, h, mask + 1)
            && t.mask == mask && t.store.Keys == {p} && Lookup(t, cfg, key, 0) == Some(p)
  {
    R.FilledHolds(memory, h);
    R.HoldsShape(R.Filled(memory, h), h, mask + 1);
    hide R.Filled, R.Holds, R.Shape;
    EmptyValid<P>(cfg, mask);
    AppendValid(Empty<P>(cfg, mask), cfg, p, Entry(key, 0, R.Filled(memory, h)));
  }

  /** CHECK with REAP. */
  const REAPER := Rule("r", Flags(true, false, false, false, false, true, false), 1, 0, false)

  /** A case of it: an address that has been stamped 256 times meets a rule with REAP. */
  lemma OutsideHappens<P>(cfg: Config, p: P, key: Key, memory: seq<Stamp>, h: seq<Stamp>, now: Stamp)
    requires |memory| == |h| == 256 && 0 < cfg.listTot
    ensures var t := Single(cfg, 255, p, key, memory, h);
            Accepted(REAPER) && Valid(t, cfg) && Match(t, cfg, REAPER, key, 0, now, NoMemory).outside
  {
    hide Valid, Match, R.Holds, R.Filled, Lookup;
    SingleValid(cfg, 255, p, key, memory, h);
    hide Single;
    OutsideExactly(Single(cfg, 255, p, key, memory, h), cfg, REAPER, key, 0, now, NoMemory, h);
  }

  /** The proc commands "+addr" (stamping the current time) and "-addr". */
  function ProcAdd<P(==)>(t: Table<P>, cfg: Config, key: Key, now: Stamp, alloc: Alloc<P>): Table<P>
    requires Valid(t, cfg) && Fits(alloc, t)
  {
    match Lookup(t, cfg, key, 0)
    case None => Init(t, cfg, key, 0, now, alloc)
    case Some(q) => Touch(t, cfg, q, now, t.store[q].ttl)
  }

  function ProcRemove<P(==)>(t: Table<P>, cfg: Config, key: Key): Table<P>
    requires Valid(t, cfg)
  {
    match Lookup(t, cfg, key, 0)
    case None => t
    case Some(q) => Remove(t, cfg, q)
  }

  /** A rule that needs a larger ring flushes the table before the mask grows. */
  function GrowTo<P>(t: Table<P>, cfg: Config, mask: nat): Table<P> {
    if mask > t.mask then Empty(cfg, mask) else t
  }
}
