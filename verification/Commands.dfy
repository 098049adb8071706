// What the commands written to a table's proc file do, from their text to the history of the addresses.
module Commands {
  import opened Seqs
  import opened Text
  import opened Jiffies
  import opened TableModel
  import opened MatchModel
  import opened LogModel
  import opened ProcFile
  import opened XtRecentProc
  import opened WriteBack
  import opened Rules
  import R = Ring

  lemma {:induction false} UpToNewline(s: string, tail: string)
    requires '\n' !in s && (tail == "" || tail[0] == '\n')
    ensures UpTo(s + tail, '\n') == s
  {
    if s == "" {
      assert s + tail == tail;
    } else {
      assert (s + tail)[1..] == s[1..] + tail;
      UpToNewline(s[1..], tail);
    }
  }

  /** s is the text of an address: a printed IPv4 address, or what the kernel takes for an IPv6 address. */
  predicate Names(cfg: Config, s: string, key: Key) {
    && |s| <= 400 && '\n' !in s
    && match key.family
       case IPv4 => IsIPv4(key.addr) && s == Dotted(key.addr)
       case IPv6 => ':' in s && cfg.in6(s) == Some(key.addr)
  }

  lemma DottedNames(cfg: Config, addr: seq<nat>)
    requires IsIPv4(addr)
    ensures Names(cfg, Dotted(addr), Key(IPv4, addr))
  {
    DottedChars(addr);
    NoSeparator(Dotted(addr), '\n');
    ThreeDigits(addr[0]);
    ThreeDigits(addr[1]);
    ThreeDigits(addr[2]);
    ThreeDigits(addr[3]);
    hide Decimal, AddressChars;
  }

  /** An address names its key, with a newline behind it or without. */
  lemma KeyIsParsed(cfg: Config, s: string, key: Key, tail: string)
    requires Names(cfg, s, key) && tail in {"", "\n"}
    ensures ParseKey(cfg, s + tail) == Some(key)
  {
    UpToNewline(s, tail);
    if key.family.IPv4? {
      DottedChars(key.addr);
      NoSeparator(s, ':');
      ParseOfDotted(key.addr);
      hide Dotted, ParseIPv4, UpTo, AddressChars;
      assert ':' !in s + tail;
    } else {
      assert ':' in s + tail;
    }
  }

  lemma PlusAddress<P>(t: Table<P>, cfg: Config, s: string, key: Key, tail: string, now: Stamp, alloc: Alloc<P>)
    requires Valid(t, cfg) && 0 < cfg.listTot && Fits(alloc, t) && Names(cfg, s, key) && tail in {"", "\n"}
    ensures var w := ProcWrite(t, cfg, "+" + (s + tail), now, alloc);
            && w.table == ProcAdd(t, cfg, key, now, alloc)
            && w.reply == Wrote(1 + |s| + |tail|) && (alloc.Memory? ==> !w.starved)
  {
    hide Dotted, ParseKey, ProcAdd, ProcRemove, Valid, Lookup, Fits, HashSize, Split;
    KeyIsParsed(cfg, s, key, tail);
    assert ("+" + (s + tail))[1..] == s + tail;
  }

  lemma MinusAddress<P>(t: Table<P>, cfg: Config, s: string, key: Key, tail: string, now: Stamp, alloc: Alloc<P>)
    requires Valid(t, cfg) && 0 < cfg.listTot && Fits(alloc, t) && Names(cfg, s, key) && tail in {"", "\n"}
    ensures ProcWrite(t, cfg, "-" + (s + tail), now, alloc) == Written(ProcRemove(t, cfg, key), Wrote(1 + |s| + |tail|), false)
  {
    hide Dotted, ParseKey, ProcAdd, ProcRemove, Valid, Lookup, Fits, HashSize, Split;
    KeyIsParsed(cfg, s, key, tail);
    assert ("-" + (s + tail))[1..] == s + tail;
  }

  /** "+addr" stamps a known address with the current time and keeps its ttl, and enters any other without a ttl. */
  lemma PlusMeans<P>(t: Table<P>, log: Log, cfg: Config, s: string, key: Key, tail: string, p: P, memory: seq<Stamp>, start: nat, now: nat)
    returns (log': Log)
    requires Simulates(t, log, cfg) && Chronicle(log, start, now) && start <= now && Valid(t, cfg)
    requires Names(cfg, s, key) && tail in {"", "\n"} && p !in t.store && |memory| == t.mask + 1
    ensures var text := "+" + (s + tail);
            var w := ProcWrite(t, cfg, text, At(now), Memory(p, memory));
            && Simulates(w.table, log', cfg) && w.reply == Wrote(|text|) && !w.starved
            && if key in log.recs then Stamped(log, key, log.recs[key].ttl, now, log') else Entered(log, cfg.listTot, key, 0, now, log')
  {
    hide Valid, ProcWrite, ProcAdd, ProcRemove, InStep, At, Chronicle;
    PlusAddress(t, cfg, s, key, tail, At(now), Memory(p, memory));
    ProcAddSimulates(t, log, cfg, key, p, memory, start, now);
    ShapeInStep(t, log, cfg);
    AdmitEnters(log, cfg, key, 0, now);
    log' := if key in log.recs then Again(log, key, log.recs[key].ttl, now) else Admit(log, cfg, key, 0, now);

  }

  /** "-addr" forgets the address. */
  lemma MinusMeans<P>(t: Table<P>, log: Log, cfg: Config, s: string, key: Key, tail: string, start: nat, now: nat, alloc: Alloc<P>)
    returns (log': Log)
    requires Simulates(t, log, cfg) && Chronicle(log, start, now) && Valid(t, cfg) && Fits(alloc, t)
    requires Names(cfg, s, key) && tail in {"", "\n"}
    ensures var text := "-" + (s + tail);
            var w := ProcWrite(t, cfg, text, At(now), alloc);
            && Simulates(w.table, log', cfg) && w.reply == Wrote(|text|) && !w.starved
            && key !in log'.recs && if key in log.recs then Gone(log, key, log') else log' == log
  {
    hide Valid, ProcWrite, ProcAdd, ProcRemove, InStep, At, Chronicle;
    MinusAddress(t, cfg, s, key, tail, At(now), alloc);
    ProcRemoveSimulates(t, log, cfg, key, start, now);
    log' := if key in log.recs then Forget(log, key) else log;
  }

  /** "/" forgets every address. Anything that starts otherwise than a command is refused, as is what is too long. */
  lemma SlashMeans<P>(t: Table<P>, log: Log, cfg: Config, text: string, now: Stamp, alloc: Alloc<P>)
    requires Simulates(t, log, cfg) && Valid(t, cfg) && Fits(alloc, t)
    ensures var w := ProcWrite(t, cfg, text, now, alloc);
            && (text != "" && text[0] == '/' && |text| <= 421 ==>
                  Simulates(w.table, Log([], map[]), cfg) && w.table.mask == t.mask && w.reply == Wrote(|text|))
            && (|text| > 421 || (text != "" && text[0] !in "/+-*") ==> w.table == t && w.reply == Einval)
            && (text == "" ==> w.table == t && w.reply == Wrote(0))
  {
    EmptySimulates<P>(cfg, t.mask);
    hide InStep, Restore, ProcAdd, ProcRemove, ParseKey, RestoreKey;
  }

  // ---------------------------------------------------------------------------
  // "*" for an address that has an entry

  /** Its stamps go behind those it has, whatever their age; its ttl stays. */
  predicate Continued(log: Log, key: Key, stamps: seq<nat>, log': Log) {
    && key in log.recs
    && if stamps == [] then log' == log
       else log' == Log(Without(log.order, key) + [key], log.recs[key := Rec(log.recs[key].ttl, log.recs[key].ticks + stamps)])
  }

  lemma ContinuedOn(log: Log, key: Key, s: nat, more: seq<nat>, next: Log, log': Log)
    requires LogShape(log) && Stamped(log, key, if key in log.recs then log.recs[key].ttl else 0, s, next)
    requires Continued(next, key, more, log')
    ensures Continued(log, key, [s] + more, log')
  {
    var ticks := log.recs[key].ticks;
    assert ticks + [s] + more == ticks + ([s] + more);
    if more == [] {
      assert [s] + more == [s];
    } else {
      var rest := Without(log.order, key);
      MoveLast(rest, key);
      assert next.order == rest + [key];
      assert next.recs[key := Rec(log.recs[key].ttl, ticks + ([s] + more))] == log.recs[key := Rec(log.recs[key].ttl, ticks + ([s] + more))];
    }
  }

  lemma {:induction false} TouchAllSimulates<P>(t: Table<P>, log: Log, cfg: Config, p: P, stamps: seq<Stamp>) returns (log': Log)
    requires Simulates(t, log, cfg) && p in t.store
    requires R.Shape(t.store[p].ring, t.mask) && t.mask < 256 && R.PowerOfTwo(t.mask + 1) && t.store[p].key in log.recs
    requires t.store[p].ttl == log.recs[t.store[p].key].ttl
    ensures Simulates(TouchAll(t, cfg, p, stamps), log', cfg) && Continued(log, t.store[p].key, stamps, log')
    decreases stamps
  {
    hide InStep, Valid, R.Shape, R.PowerOfTwo, R.Put, LogShape, Without;
    log' := log;
    if stamps != [] {
      var e, s := t.store[p], stamps[0];
      TouchAllNext(t, cfg, p, s, stamps[1..]);
      TouchedOnce(t, log, cfg, p, s);
      var u, next := Touch(t, cfg, p, s, e.ttl), Again(log, e.key, e.ttl, s);
      assert [s] + stamps[1..] == stamps;
      hide Simulates, TouchAll, Touch, Again, Continued;
      log' := TouchAllSimulates(u, next, cfg, p, stamps[1..]);
      ContinuedOn(log, e.key, s, stamps[1..], next, log');
    }
  }

  lemma TouchedOnce<P>(t: Table<P>, log: Log, cfg: Config, p: P, s: Stamp)
    requires Simulates(t, log, cfg) && p in t.store
    requires R.Shape(t.store[p].ring, t.mask) && t.mask < 256 && R.PowerOfTwo(t.mask + 1) && t.store[p].key in log.recs
    requires t.store[p].ttl == log.recs[t.store[p].key].ttl
    ensures var e := t.store[p];
            var (u, next) := (Touch(t, cfg, p, s, e.ttl), Again(log, e.key, e.ttl, s));
            && Simulates(u, next, cfg) && LogShape(log) && Stamped(log, e.key, log.recs[e.key].ttl, s, next)
            && p in u.store && u.store[p].key == e.key && u.store[p].ttl == e.ttl
            && e.key in next.recs && next.recs[e.key].ttl == e.ttl
  {
    hide Simulates, R.Shape, R.PowerOfTwo, R.Put, LogShape, At, Without;
    ShapeInStep(t, log, cfg);
    TouchSimulates(t, log, cfg, p, t.store[p].ttl, s);
    StampShows(s);
  }

  lemma StampShows(s: Stamp)
    ensures At(s) == s
  {
  }

  lemma RestoreKnown<P>(t: Table<P>, cfg: Config, e: UserEntry, q: P, size: nat, alloc: Alloc<P>)
    requires Valid(t, cfg) && 0 < cfg.listTot && Fits(alloc, t) && Plausible(e) && Lookup(t, cfg, KeyOf(e), 0) == Some(q)
    requires q in t.store && R.Shape(t.store[q].ring, t.mask) && t.mask < 256 && R.PowerOfTwo(t.mask + 1)
    requires forall i :: 0 <= i < |Sorted(e.stamps)| ==> Sorted(e.stamps)[i] < WORD
    ensures Restore(t, cfg, KeyOf(e), Tokens(e), size, alloc) == Written(TouchAll(t, cfg, q, Sorted(e.stamps)), Wrote(size), false)
  {
    hide Valid, Lookup, KeyOf, Plausible, Sorted, TouchAll, Tokens, R.Shape, R.PowerOfTwo, Numbers, Number;
    TokensAfterTtl(e);
  }

  lemma TokensAfterTtl(e: UserEntry)
    requires forall i :: 0 <= i < |Sorted(e.stamps)| ==> Sorted(e.stamps)[i] < WORD
    ensures Tokens(e) != [] && Numbers(Tokens(e)[1..]) == Sorted(e.stamps)
  {
    hide Sorted, Decimals, Numbers, Decimal;
    assert Tokens(e)[1..] == Decimals(Sorted(e.stamps)) + [""];
    NumbersOfDecimals(Sorted(e.stamps));
  }

  /** "*addr;ttl;stamp;...;stamp;" for an address that is there stamps it with each of them, in ascending order. */
  lemma StarMeans<P>(t: Table<P>, log: Log, cfg: Config, e: UserEntry, now: Stamp, alloc: Alloc<P>) returns (log': Log)
    requires Simulates(t, log, cfg) && Valid(t, cfg) && Fits(alloc, t) && Plausible(e) && |Command(e)| <= 421 && KeyOf(e) in log.recs
    ensures var w := ProcWrite(t, cfg, Command(e), now, alloc);
            && Simulates(w.table, log', cfg) && w.reply == Wrote(|Command(e)|) && !w.starved
            && Continued(log, KeyOf(e), Sorted(e.stamps), log')
  {
    hide Valid, ProcWrite, Restore, Command, Plausible, KeyOf, Sorted, Lookup, InStep, TouchAll, R.Shape, R.PowerOfTwo, EntrySim;
    CommandRestores(t, cfg, e, now, alloc);
    var q := FindKnown(t, log, cfg, KeyOf(e));
    StampsSorted(e);
    RestoreKnown(t, cfg, e, q, |Command(e)|, alloc);
    log' := TouchAllSimulates(t, log, cfg, q, Sorted(e.stamps));
  }

  lemma FindKnown<P>(t: Table<P>, log: Log, cfg: Config, key: Key) returns (q: P)
    requires Simulates(t, log, cfg) && Valid(t, cfg) && key in log.recs
    ensures Lookup(t, cfg, key, 0) == Some(q) && q in t.store && t.store[q].key == key
    ensures R.Shape(t.store[q].ring, t.mask) && t.mask < 256 && R.PowerOfTwo(t.mask + 1) && t.store[q].ttl == log.recs[key].ttl
  {
    LookupIsMap(t, log, cfg, key, 0);
    q := Lookup(t, cfg, key, 0).value;
    MemberOf(t, log, cfg, q);
  }

  lemma MemberOf<P>(t: Table<P>, log: Log, cfg: Config, p: P)
    requires Simulates(t, log, cfg) && p in t.store
    ensures R.Shape(t.store[p].ring, t.mask) && t.mask < 256 && R.PowerOfTwo(t.mask + 1)
    ensures t.store[p].key in log.recs && t.store[p].ttl == log.recs[t.store[p].key].ttl
  {
  }

  // ---------------------------------------------------------------------------
  // "*" and IPv6

  /** A character that does not separate is in one of the parts. */
  lemma {:induction false} SplitKeeps(s: string, sep: char, c: char) returns (i: nat)
    requires c in s && c != sep
    ensures i < |Split(s, sep)| && c in Split(s, sep)[i]
  {
    if s[0] == c {
      i := 0;
    } else {
      i := SplitKeeps(s[1..], sep, c);
      if s[0] == sep {
        i := i + 1;
      }
    }
  }

  lemma ColonIsNoIPv4(s: string)
    requires ':' in s
    ensures ParseIPv4(s) == None
  {
    var i := SplitKeeps(s, '.', ':');
    hide Split, Value;
  }

  /** The family is decided by the text behind the address, where "*" commands have no colon: an IPv6 address is
      taken for an IPv4 address and refused, so that no entry of its family can be restored. */
  lemma StarRefusesIPv6<P>(t: Table<P>, cfg: Config, s: string, rest: string, now: Stamp, alloc: Alloc<P>)
    requires Valid(t, cfg) && 0 < cfg.listTot && Fits(alloc, t)
    requires ':' in s && ';' !in s && ':' !in rest
    ensures ProcWrite(t, cfg, "*" + (s + [';'] + rest), now, alloc) == Written(t, Einval, false)
  {
    var text := "*" + (s + [';'] + rest);
    assert text[1..] == s + [';'] + rest;
    SplitFirst(s, ';', rest);
    ColonIsNoIPv4(s);
    SplitWithout(rest, ';', ':');
    hide Split, Valid, Lookup, Restore, ParseIPv4;
    var tokens := [s] + Split(rest, ';');
    assert forall i :: 1 <= i < |tokens| ==> tokens[i] == Split(rest, ';')[i - 1];
  }

  lemma {:induction false} SplitWithout(s: string, sep: char, c: char)
    requires c !in s
    ensures forall i :: 0 <= i < |Split(s, sep)| ==> c !in Split(s, sep)[i]
  {
    if s != "" {
      SplitWithout(s[1..], sep, c);
    }
  }
}
