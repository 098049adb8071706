// Rules and the tables they share: recent_mt_check, recent_mt_destroy and the per-net table list.
module RecentNet {
  import opened Jiffies
  import opened MatchModel
  import opened TableModel
  import R = Ring

  /** roundup_pow_of_two */
  function RoundUp(n: nat): (p: nat)
    requires 0 < n
    ensures n <= p < 2 * n
    ensures n <= 256 ==> R.PowerOfTwo(p)
  {
    if n == 1 then 1 else 2 * RoundUp((n + 1) / 2)
  }

  /** How many stamps a rule wants remembered for each address; pktListTot is the module parameter. */
  function Wanted(pktListTot: nat, hitCount: nat): (n: nat)
    ensures n == if pktListTot == 0 && hitCount == 0 then 32 else if pktListTot < hitCount then hitCount else pktListTot
  {
    if pktListTot > hitCount then pktListTot else if hitCount > 0 then hitCount else 32
  }

  /** A mask of the smallest power of two that is not below n. */
  predicate MaskOf(mask: nat, n: nat) {
    n <= mask + 1 < 2 * n && R.PowerOfTwo(mask + 1)
  }

  /** The stamp mask a rule asks for. */
  function MaskFor(pktListTot: nat, hitCount: nat): (mask: nat)
    requires pktListTot < MAX_NSTAMPS && hitCount < MAX_NSTAMPS
    ensures mask < 256 && R.PowerOfTwo(mask + 1) && R.Need(hitCount) <= mask + 1
    ensures MaskOf(mask, Wanted(pktListTot, hitCount))
  {
    if pktListTot != 0 && hitCount < pktListTot then RoundUp(pktListTot) - 1
    else if hitCount != 0 then RoundUp(hitCount) - 1
    else 32 - 1
  }

  lemma {:induction false} RoundsTo256(n: nat)
    requires 0 < n <= 256
    ensures RoundUp(n) == 256 <==> n > 128
  {
    assert RoundUp(n) < 2 * n;
    if n > 128 {
      assert R.PowerOfTwo(RoundUp(n));
    }
  }

  /** Which rules make rings of 256 slots. */
  lemma WideRings(pktListTot: nat, hitCount: nat)
    requires pktListTot < MAX_NSTAMPS && hitCount < MAX_NSTAMPS
    ensures MaskFor(pktListTot, hitCount) == 255 <==> pktListTot > 128 || hitCount > 128
  {
    if pktListTot > 0 {
      RoundsTo256(pktListTot);
    }
    if hitCount > 0 {
      RoundsTo256(hitCount);
    }
  }

  /** A mask covers what another asks for exactly if it is not smaller. */
  lemma Covers(mask: nat, have: nat, n: nat)
    requires MaskOf(mask, n) && R.PowerOfTwo(have + 1)
    ensures mask <= have <==> n <= have + 1
  {
  }

  /** A table and its reference count. */
  datatype Shared<P> = Shared(refcnt: nat, table: Table<P>)

  /** One reference per live rule, and a ring slot for every hit that a live rule asks for. */
  ghost predicate Serving<P>(s: Shared<P>, cfg: Config, name: string, rules: multiset<Rule>) {
    && |rules| == s.refcnt > 0
    && Valid(s.table, cfg)
    && forall r | r in rules :: r.name == name && Accepted(r) && R.Need(r.hitCount) <= s.table.mask + 1
  }

  ghost predicate AllServing<P>(tables: map<string, Shared<P>>, cfg: Config, rules: map<string, multiset<Rule>>) {
    rules.Keys == tables.Keys && forall n | n in tables :: Serving(tables[n], cfg, n, rules[n])
  }

  lemma PutServing<P>(tables: map<string, Shared<P>>, cfg: Config, rules: map<string, multiset<Rule>>,
                      n: string, s: Shared<P>, rs: multiset<Rule>)
    requires AllServing(tables, cfg, rules) && Serving(s, cfg, n, rs)
    ensures AllServing(tables[n := s], cfg, rules[n := rs])
  {
  }

  lemma JoinServing<P>(s: Shared<P>, cfg: Config, n: string, rules: multiset<Rule>, rule: Rule, mask: nat)
    requires Serving(s, cfg, n, rules) && Accepted(rule) && rule.name == n
    requires mask < 256 && R.PowerOfTwo(mask + 1) && R.Need(rule.hitCount) <= mask + 1
    ensures Serving(Shared(s.refcnt + 1, GrowTo(s.table, cfg, mask)), cfg, n, rules + multiset{rule})
  {
    EmptyValid<P>(cfg, mask);
  }

  lemma OpenServing<P>(cfg: Config, rule: Rule, mask: nat)
    requires Accepted(rule) && mask < 256 && R.PowerOfTwo(mask + 1) && R.Need(rule.hitCount) <= mask + 1
    ensures Serving(Shared(1, Empty<P>(cfg, mask)), cfg, rule.name, multiset{rule})
  {
    EmptyValid<P>(cfg, mask);
  }

  lemma LeaveServing<P>(s: Shared<P>, cfg: Config, n: string, rules: multiset<Rule>, rule: Rule)
    requires Serving(s, cfg, n, rules) && rule in rules && s.refcnt > 1
    ensures Serving(s.(refcnt := s.refcnt - 1), cfg, n, rules - multiset{rule})
  {
  }

  lemma LastLeaves(rules: multiset<Rule>, rule: Rule, refcnt: nat)
    requires rule in rules && |rules| == refcnt
    ensures |rules - multiset{rule}| == refcnt - 1 && (rules - multiset{rule} == multiset{} <==> refcnt == 1)
  {
  }

  lemma CloseServing<P>(tables: map<string, Shared<P>>, cfg: Config, rules: map<string, multiset<Rule>>, n: string)
    requires AllServing(tables, cfg, rules)
    ensures AllServing(tables - {n}, cfg, rules - {n})
  {
    hide Serving;
  }

  lemma MatchKeepsMask<P>(t: Table<P>, cfg: Config, rule: Rule, key: Key, ttl: nat, now: Stamp, alloc: Alloc<P>)
    requires Valid(t, cfg) && Accepted(rule) && Fits(alloc, t)
    ensures Match(t, cfg, rule, key, ttl, now, alloc).table.mask == t.mask
  {
  }

  /** A packet leaves the mask alone, so the rules stay served. */
  lemma PacketServing<P>(s: Shared<P>, cfg: Config, rules: multiset<Rule>, rule: Rule, key: Key, ttl: nat,
                         now: Stamp, alloc: Alloc<P>)
    requires Serving(s, cfg, rule.name, rules) && rule in rules && 0 < cfg.listTot
    requires Fits(alloc, s.table)
    ensures Serving(s.(table := Match(s.table, cfg, rule, key, ttl, now, alloc).table), cfg, rule.name, rules)
  {
    MatchValid(s.table, cfg, rule, key, ttl, now, alloc);
    MatchKeepsMask(s.table, cfg, rule, key, ttl, now, alloc);
  }

  lemma ServedRule<P>(tables: map<string, Shared<P>>, cfg: Config, rules: map<string, multiset<Rule>>, rule: Rule)
    requires AllServing(tables, cfg, rules) && rule.name in rules && rule in rules[rule.name]
    ensures rule.name in tables && Serving(tables[rule.name], cfg, rule.name, rules[rule.name])
    ensures Accepted(rule) && Valid(tables[rule.name].table, cfg) && R.Need(rule.hitCount) <= tables[rule.name].table.mask + 1
  {
  }

  /** A packet that meets a live rule leaves every rule of the net served. */
  lemma PacketServesAll<P>(tables: map<string, Shared<P>>, cfg: Config, rules: map<string, multiset<Rule>>,
                           rule: Rule, key: Key, ttl: nat, now: Stamp, alloc: Alloc<P>)
    requires AllServing(tables, cfg, rules) && rule.name in tables && rule in rules[rule.name] && 0 < cfg.listTot
    requires Accepted(rule) && Valid(tables[rule.name].table, cfg)
    requires Fits(alloc, tables[rule.name].table)
    ensures var s := tables[rule.name];
            AllServing(tables[rule.name := s.(table := Match(s.table, cfg, rule, key, ttl, now, alloc).table)], cfg, rules)
  {
    ServedRule(tables, cfg, rules, rule);
    hide Match, Valid, Accepted, Serving, Fits;
    var s := tables[rule.name];
    PacketServing(s, cfg, rules[rule.name], rule, key, ttl, now, alloc);
    PutServing(tables, cfg, rules, rule.name, s.(table := Match(s.table, cfg, rule, key, ttl, now, alloc).table), rules[rule.name]);
    assert rules[rule.name := rules[rule.name]] == rules;
  }

  /** CHECK for 200 hits, on the table of REAPER. */
  const WIDE := Rule("r", Flags(true, false, false, false, false, false, false), 0, 200, false)

  /** Nothing in recent_mt_check keeps a rule with REAP from a table that another rule has given 256-slot rings:
      both are served there, and the 256th stamp of the only address makes reap read before its stamps. */
  lemma ServedOutside<P>(cfg: Config, pktListTot: nat, p: P, key: Key, memory: seq<Stamp>, h: seq<Stamp>, now: Stamp)
    requires 0 < cfg.listTot && pktListTot < MAX_NSTAMPS && |memory| == |h| == 256
    ensures MaskFor(pktListTot, WIDE.hitCount) == 255
    ensures var s := Shared(2, Single(cfg, 255, p, key, memory, h));
            && Serving(s, cfg, "r", multiset{REAPER, WIDE}) && Valid(s.table, cfg) && Accepted(REAPER)
            && Match(s.table, cfg, REAPER, key, 0, now, NoMemory).outside
  {
    hide Valid, Match, Single, R.Holds, Lookup, R.PowerOfTwo;
    WideRings(pktListTot, WIDE.hitCount);
    OutsideHappens(cfg, p, key, memory, h, now);
    SingleValid(cfg, 255, p, key, memory, h);
  }

  /** Nothing is linked. */
  predicate Blank<P(==)>(t: Table<P>) {
    t.entries == 0 && t.lru == [] && t.store == map[] && forall b :: 0 <= b < |t.buckets| ==> t.buckets[b] == []
  }

  lemma BlankEmpty<P>(cfg: Config, mask: nat)
    ensures Blank(Empty<P>(cfg, mask)) && Empty<P>(cfg, mask).mask == mask
  {
  }

  lemma MaskIsPower<P>(tables: map<string, Shared<P>>, cfg: Config, rules: map<string, multiset<Rule>>, n: string)
    requires AllServing(tables, cfg, rules) && n in tables
    ensures R.PowerOfTwo(tables[n].table.mask + 1)
  {
  }

  /** One more rule of that name: it finds the table as it was if that remembers the wanted number of stamps, and
      else one with nothing in it that does. */
  predicate Served<P(==)>(was: map<string, Shared<P>>, tables: map<string, Shared<P>>, name: string, wanted: nat) {
    && tables.Keys == was.Keys + {name} && (forall n | n in was && n != name :: tables[n] == was[n])
    && tables[name].refcnt == 1 + (if name in was then was[name].refcnt else 0)
    && if name in was && wanted <= was[name].table.mask + 1 then tables[name].table == was[name].table
       else Blank(tables[name].table) && MaskOf(tables[name].table.mask, wanted)
  }

  /** With the default parameter a first rule without a hit count opens a table of 32 slots for each address, and a
      rule that asks for up to 32 hits joins it without a flush. */
  lemma DefaultServes<P>(was: map<string, Shared<P>>, first: map<string, Shared<P>>, both: map<string, Shared<P>>, n: string, hitCount: nat)
    requires n !in was && Served(was, first, n, 32)
    requires 0 < hitCount <= 32 && Served(first, both, n, hitCount)
    ensures first[n].table.mask == 31 && Blank(first[n].table) && both[n] == Shared(2, first[n].table)
  {
  }

  lemma NewIsServed<P>(was: map<string, Shared<P>>, cfg: Config, rules: map<string, multiset<Rule>>, rule: Rule, pktListTot: nat)
    requires AllServing(was, cfg, rules) && Accepted(rule) && pktListTot < MAX_NSTAMPS
    ensures var (n, mask, wanted) := (rule.name, MaskFor(pktListTot, rule.hitCount), Wanted(pktListTot, rule.hitCount));
            Served(was, if n in was then was[n := Shared(was[n].refcnt + 1, GrowTo(was[n].table, cfg, mask))]
                        else was[n := Shared(1, Empty(cfg, mask))], n, wanted)
  {
    hide AllServing, Valid, Empty, MaskFor, MaskOf;
    var mask, wanted := MaskFor(pktListTot, rule.hitCount), Wanted(pktListTot, rule.hitCount);
    BlankEmpty<P>(cfg, mask);
    if rule.name in was {
      MaskIsPower(was, cfg, rules, rule.name);
      Covers(mask, was[rule.name].table.mask, wanted);
    }
  }

  class Net<P(==)> {
    const cfg: Config
    const pktListTot: nat
    var tables: map<string, Shared<P>>
    /** The rules that have been checked and not yet destroyed. */
    ghost var rules: map<string, multiset<Rule>>

    constructor (cfg: Config, pktListTot: nat)
      requires 0 < cfg.listTot && pktListTot < MAX_NSTAMPS
      ensures Ok() && tables == map[] && rules == map[]
    {
      this.cfg := cfg;
      this.pktListTot := pktListTot;
      tables := map[];
      rules := map[];
    }

    ghost predicate Ok()
      reads this
    {
      && 0 < cfg.listTot && pktListTot < MAX_NSTAMPS
      && AllServing(tables, cfg, rules)
    }

    /** A rule joins a table that is there, which is flushed and grown first if it is too small. */
    method Join(rule: Rule)
      requires Ok() && Accepted(rule) && rule.name in tables
      modifies this
      ensures var n := rule.name;
        && rules == old(rules)[n := old(rules)[n] + multiset{rule}]
        && tables == old(tables)[n := Shared(old(tables)[n].refcnt + 1,
                                             GrowTo(old(tables)[n].table, cfg, MaskFor(pktListTot, rule.hitCount)))]
      ensures Ok()
    {
      hide Serving, GrowTo, Valid;
      var n, s, mask := rule.name, tables[rule.name], MaskFor(pktListTot, rule.hitCount);
      var s' := Shared(s.refcnt + 1, GrowTo(s.table, cfg, mask));
      JoinServing(s, cfg, n, rules[n], rule, mask);
      PutServing(tables, cfg, rules, n, s', rules[n] + multiset{rule});
      tables := tables[n := s'];
      rules := rules[n := rules[n] + multiset{rule}];
    }

    /** The first rule of a name creates its table. */
    method Open(rule: Rule)
      requires Ok() && Accepted(rule) && rule.name !in tables
      modifies this
      ensures rules == old(rules)[rule.name := multiset{rule}]
      ensures tables == old(tables)[rule.name := Shared(1, Empty(cfg, MaskFor(pktListTot, rule.hitCount)))]
      ensures Ok()
    {
      var n, s := rule.name, Shared(1, Empty<P>(cfg, MaskFor(pktListTot, rule.hitCount)));
      OpenServing<P>(cfg, rule, MaskFor(pktListTot, rule.hitCount));
      PutServing(tables, cfg, rules, n, s, multiset{rule});
      tables := tables[n := s];
      rules := rules[n := multiset{rule}];
    }

    /** recent_mt_check; false is -EINVAL. An accepted rule finds the table as it was if that remembers as many
        stamps as the rule wants, and else a new or an emptied one that does. */
    method Check(rule: Rule) returns (ok: bool)
      requires Ok()
      modifies this
      ensures ok <==> Accepted(rule)
      ensures !ok ==> unchanged(this)
      ensures ok ==> Served(old(tables), tables, rule.name,
                            if pktListTot == 0 && rule.hitCount == 0 then 32
                            else if pktListTot < rule.hitCount then rule.hitCount else pktListTot)
      ensures ok ==>
        var n, mask := rule.name, MaskFor(pktListTot, rule.hitCount);
        if n in old(tables) then
          && rules == old(rules)[n := old(rules)[n] + multiset{rule}]
          && tables == old(tables)[n := Shared(old(tables)[n].refcnt + 1, GrowTo(old(tables)[n].table, cfg, mask))]
        else
          rules == old(rules)[n := multiset{rule}] && tables == old(tables)[n := Shared(1, Empty(cfg, mask))]
      ensures Ok()
    {
      ok := Accepted(rule);
      if ok {
        hide AllServing, Serving, Valid, Empty, GrowTo, Served, MaskFor;
        NewIsServed(tables, cfg, rules, rule, pktListTot);
        if rule.name in tables {
          Join(rule);
        } else {
          Open(rule);
        }
      }
    }

    /** The last rule of a name takes the table with it. */
    method Close(rule: Rule)
      requires Ok() && rule.name in rules && rule in rules[rule.name] && tables[rule.name].refcnt == 1
      modifies this
      ensures tables == old(tables) - {rule.name} && rules == old(rules) - {rule.name}
      ensures Ok()
    {
      hide AllServing, Serving;
      CloseServing(tables, cfg, rules, rule.name);
      tables := tables - {rule.name};
      rules := rules - {rule.name};
    }

    method Leave(rule: Rule)
      requires Ok() && rule.name in rules && rule in rules[rule.name] && tables[rule.name].refcnt > 1
      modifies this
      ensures var n := rule.name;
              && tables == old(tables)[n := old(tables)[n].(refcnt := old(tables)[n].refcnt - 1)]
              && rules == old(rules)[n := old(rules)[n] - multiset{rule}]
      ensures Ok()
    {
      hide Serving, Accepted, Valid;
      var n, s := rule.name, tables[rule.name];
      LeaveServing(s, cfg, n, rules[n], rule);
      PutServing(tables, cfg, rules, n, s.(refcnt := s.refcnt - 1), rules[n] - multiset{rule});
      hide AllServing;
      tables := tables[n := s.(refcnt := s.refcnt - 1)];
      rules := rules[n := rules[n] - multiset{rule}];
    }

    /** recent_mt_destroy */
    method Destroy(rule: Rule)
      requires Ok() && rule.name in rules && rule in rules[rule.name]
      modifies this
      ensures var n := rule.name; var left := old(rules)[n] - multiset{rule};
        if left == multiset{} then tables == old(tables) - {n} && rules == old(rules) - {n}
        else tables == old(tables)[n := old(tables)[n].(refcnt := |left|)] && rules == old(rules)[n := left]
      ensures Ok()
    {
      hide AllServing, Valid, Accepted;
      ServedRule(tables, cfg, rules, rule);
      LastLeaves(rules[rule.name], rule, tables[rule.name].refcnt);
      if tables[rule.name].refcnt - 1 == 0 {
        Close(rule);
      } else {
        Leave(rule);
      }
    }

    /** A packet meets a live rule: Check has made sure that its table is there, that the rule is
        acceptable and that the ring has a slot for every hit. */
    method Packet(rule: Rule, key: Key, ttl: nat, now: Stamp, alloc: Alloc<P>)
      returns (verdict: bool, hotdrop: bool, outside: bool, dangling: bool)
      requires Ok() && rule.name in rules && rule in rules[rule.name]
      requires Fits(alloc, tables[rule.name].table)
      modifies this`tables
      ensures Accepted(rule) && R.Need(rule.hitCount) <= old(tables)[rule.name].table.mask + 1
      ensures var s := old(tables)[rule.name];
              var out := Match(s.table, cfg, rule, key, ttl, now, alloc);
              tables == old(tables)[rule.name := s.(table := out.table)] && out == Outcome(out.table, verdict, hotdrop, outside, dangling)
      ensures Ok()
    {
      hide AllServing, Serving, Match, Valid, Accepted, Fits;
      ServedRule(tables, cfg, rules, rule);
      PacketServesAll(tables, cfg, rules, rule, key, ttl, now, alloc);
      var out := Match(tables[rule.name].table, cfg, rule, key, ttl, now, alloc);
      verdict, hotdrop, outside, dangling := out.verdict, out.hotdrop, out.outside, out.dangling;
      tables := tables[rule.name := tables[rule.name].(table := out.table)];
    }
  }
}
