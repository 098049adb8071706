// struct recent_entry and struct recent_table, updated in place.  State() is the table as a value
// (TableModel); each method is proved to do to it what the model's function does.
module XtRecent {
  import opened Seqs
  import opened Text
  import opened Jiffies
  import opened MatchModel
  import P = ProcFile
  import T = TableModel
  import R = Ring

  class RecentEntry {
    const key: T.Key
    var ttl: nat
    var index: nat
    var nstamps: nat
    const stamps: array<Stamp>

    constructor (key: T.Key, ttl: nat, slots: nat, first: Stamp)
      requires slots > 0
      ensures fresh(stamps) && stamps.Length == slots
      ensures Value() == NewEntry(key, ttl, stamps[..], first)
    {
      this.key := key;
      this.ttl := ttl;
      this.nstamps := 1;
      this.index := 1;
      stamps := new Stamp[slots];
      new;
      stamps[0] := first;
    }

    function Ring(): R.Ring
      reads this, stamps
    {
      R.Ring(stamps[..], nstamps, index)
    }

    function Value(): T.Entry
      reads this, stamps
    {
      T.Entry(key, ttl, Ring())
    }

    /** The match loop over the stamps, with its continue and break. */
    method Seen(cutoff: Stamp, seconds: nat, hitCount: nat) returns (hit: bool)
      requires nstamps <= stamps.Length
      ensures hit <==> R.Hits(R.Visible(Ring()), cutoff, seconds) >= R.Need(hitCount)
    {
      ghost var visible := R.Visible(Ring());
      var i, hits := 0, 0;
      while i < nstamps
        invariant 0 <= i <= nstamps
        invariant hits == R.Hits(visible[..i], cutoff, seconds)
        invariant hits < R.Need(hitCount)
      {
        R.HitsPrefix(visible, i, cutoff, seconds);
        if !(seconds != 0 && TimeAfter(cutoff, stamps[i])) {
          hits := hits + 1;
          if hitCount == 0 || hits >= hitCount {
            return true;
          }
        }
        i := i + 1;
      }
      assert visible[..i] == visible;
      return false;
    }

    /** The ring half of recent_entry_update. */
    method Push(mask: nat, s: Stamp)
      requires mask < 256 && R.PowerOfTwo(mask + 1) && stamps.Length == mask + 1
      modifies this, stamps
      ensures ttl == old(ttl) && Ring() == R.Put(old(Ring()), mask, s)
    {
      R.AndIsModulo(index, mask);
      index := R.And(index, mask);
      stamps[index] := s;
      index := (index + 1) % 256;
      if index > nstamps {
        nstamps := index;
      }
    }

    /** The same in kernel 3.16. */
    method PushModulo(s: Stamp)
      requires stamps.Length > 0
      modifies this, stamps
      ensures ttl == old(ttl) && Ring() == R.PutModulo(old(Ring()), s)
    {
      index := index % stamps.Length;
      stamps[index] := s;
      index := (index + 1) % 256;
      if index > nstamps {
        nstamps := index;
      }
    }
  }

  /** One link of a chain. */
  lemma ScanStep(chain: seq<RecentEntry>, store: map<RecentEntry, T.Entry>, i: nat, key: T.Key, ttl: nat)
    requires i < |chain| && chain[i] in store
    ensures T.Scan(chain[i..], store, key, ttl)
            == if T.Matches(store[chain[i]], key, ttl) then Some(chain[i]) else T.Scan(chain[i + 1..], store, key, ttl)
    ensures T.Matches(store[chain[i]], key, ttl) <==>
            store[chain[i]].key == key && (ttl == store[chain[i]].ttl || ttl == 0 || store[chain[i]].ttl == 0)
  {
    assert chain[i..][1..] == chain[i + 1..];
  }

  class RecentTable {
    const cfg: T.Config
    var mask: nat
    var entries: int
    var lru: seq<RecentEntry>
    var iphash: seq<seq<RecentEntry>>
    ghost var store: map<RecentEntry, T.Entry>
    ghost var Repr: set<object>

    constructor (cfg: T.Config, mask: nat)
      requires cfg.listTot > 0 && mask < 256 && R.PowerOfTwo(mask + 1)
      ensures Ok() && State() == T.Empty(cfg, mask) && this.cfg == cfg
    {
      this.cfg := cfg;
      this.mask := mask;
      entries := 0;
      lru := [];
      iphash := seq(T.HashSize(cfg.listTot), _ => []);
      store := map[];
      Repr := {};
    }

    ghost function State(): T.Table<RecentEntry>
      reads this
    {
      T.Table(mask, entries, iphash, lru, store)
    }

    /** store mirrors the entries, which own different stamp arrays; Repr covers both. */
    ghost predicate Mirrored()
      reads this, Repr
    {
      && this !in Repr
      && (forall e | e in store :: e in Repr && e.stamps in Repr && e.Value() == store[e])
      && forall e, f | e in store && f in store && e != f :: e.stamps != f.stamps
    }

    ghost predicate Ok()
      reads this, Repr
    {
      cfg.listTot > 0 && T.Valid(State(), cfg) && Mirrored()
    }

    /** What the methods use of an entry that is in the table. */
    lemma Member(e: RecentEntry)
      requires Ok() && e in store
      ensures e.Value() == store[e] && R.Shape(store[e].ring, mask) && mask < 256 && R.PowerOfTwo(mask + 1)
      ensures |iphash| == T.HashSize(cfg.listTot) && e in lru && lru[0] in store
      ensures e in Repr && e.stamps in Repr
    {
    }

    lemma Chained(b: nat)
      requires Ok() && b < |iphash|
      ensures forall p | p in iphash[b] :: p in store && p.Value() == store[p]
    {
      assert T.ChainOk(iphash[b], store, cfg, b);
    }

    method Lookup(key: T.Key, ttl: nat) returns (e: RecentEntry?)
      requires Ok()
      ensures e == null <==> T.Lookup(State(), cfg, key, ttl).None?
      ensures e != null ==> T.Lookup(State(), cfg, key, ttl) == Some(e) && e in store
    {
      hide Mirrored, T.BucketOf, T.HashSize, T.Matches;
      var chain := iphash[T.BucketOf(cfg, key)];
      var i := 0;
      Chained(T.BucketOf(cfg, key));
      hide T.Valid;
      while i < |chain|
        invariant 0 <= i <= |chain|
        invariant T.Scan(chain, store, key, ttl) == T.Scan(chain[i..], store, key, ttl)
      {
        e := chain[i];
        assert e in chain && e.Value() == store[e];
        ScanStep(chain, store, i, key, ttl);
        if e.key == key && (ttl == e.ttl || ttl == 0 || e.ttl == 0) {
          return;
        }
        i := i + 1;
      }
      e := null;
    }

    /** recent_entry_remove */
    method Remove(e: RecentEntry)
      requires |iphash| == T.HashSize(cfg.listTot) && e in store && Mirrored()
      modifies this`entries, this`lru, this`iphash, this`store
      ensures State() == T.Remove(old(State()), cfg, e) && Mirrored()
    {
      var b := T.BucketOf(cfg, e.key);
      iphash := iphash[b := Without(iphash[b], e)];
      lru := Without(lru, e);
      entries := entries - 1;
      store := store - {e};
    }

    /** A full table gives up its least recently used entry. */
    method Evict()
      requires T.Linked(State(), cfg) && Mirrored()
      modifies this`entries, this`lru, this`iphash, this`store
      ensures State() == T.MakeRoom(old(State()), cfg) && Mirrored()
    {
      if entries >= cfg.listTot && lru != [] {
        Remove(lru[0]);
      }
    }

    /** Allocation, initialisation and the two list_add_tail calls. */
    method Emplace(key: T.Key, ttl: nat, first: Stamp) returns (e: RecentEntry)
      requires |iphash| == T.HashSize(cfg.listTot) && Mirrored()
      modifies this`entries, this`lru, this`iphash, this`store, this`Repr
      ensures fresh(e) && fresh(e.stamps) && e.stamps.Length == mask + 1
      ensures State() == T.Append(old(State()), cfg, e, NewEntry(key, ttl, e.stamps[..], first)) && Mirrored()
      ensures Repr == old(Repr) + {e, e.stamps}
    {
      hide T.HashSize;
      e := new RecentEntry(key, ttl, mask + 1, first);
      var b := T.BucketOf(cfg, key);
      iphash := iphash[b := iphash[b] + [e]];
      lru := lru + [e];
      entries := entries + 1;
      store := store[e := e.Value()];
      Repr := Repr + {e, e.stamps};
    }

    /** recent_entry_init */
    method Create(key: T.Key, ttl: nat, first: Stamp) returns (e: RecentEntry)
      requires T.Linked(State(), cfg) && Mirrored()
      modifies this`entries, this`lru, this`iphash, this`store, this`Repr
      ensures fresh(e) && fresh(e.stamps) && e in store && e.stamps.Length == mask + 1
      ensures State() == MatchModel.Init(old(State()), cfg, key, ttl, first, Memory(e, e.stamps[..]))
      ensures Mirrored() && fresh(Repr - old(Repr))
    {
      Evict();
      e := Emplace(key, ttl, first);
    }

    method Init(key: T.Key, ttl: nat, first: Stamp) returns (e: RecentEntry)
      requires Ok()
      modifies this`entries, this`lru, this`iphash, this`store, this`Repr
      ensures fresh(e) && fresh(e.stamps) && e in store && e.stamps.Length == mask + 1
      ensures State() == MatchModel.Init(old(State()), cfg, key, ttl, first, Memory(e, e.stamps[..]))
      ensures Ok() && fresh(Repr - old(Repr))
    {
      ghost var t := State();
      e := Create(key, ttl, first);
      InitValid(t, cfg, key, ttl, first, Memory(e, e.stamps[..]));
    }

    /** recent_entry_update and the ttl assignment that may follow it. */
    method Renew(e: RecentEntry, s: Stamp, ttl: nat)
      requires e in store && Mirrored() && R.Shape(store[e].ring, mask) && mask < 256 && R.PowerOfTwo(mask + 1)
      modifies this`lru, this`store, e, e.stamps
      ensures State() == T.Touch(old(State()), cfg, e, s, ttl)
      ensures Mirrored()
    {
      assert e.Value() == store[e];
      e.Push(mask, s);
      lru := Without(lru, e) + [e];
      e.ttl := ttl;
      store := store[e := e.Value()];
    }

    method Update(e: RecentEntry, s: Stamp, ttl: nat)
      requires Ok() && e in store
      modifies this`lru, this`store, e, e.stamps
      ensures State() == T.Touch(old(State()), cfg, e, s, ttl)
      ensures Ok() && e in store
    {
      T.TouchValid(State(), cfg, e, s, ttl);
      Renew(e, s, ttl);
    }

    method Delete(e: RecentEntry)
      requires Ok() && e in store
      modifies this`entries, this`lru, this`iphash, this`store
      ensures State() == T.Remove(old(State()), cfg, e)
      ensures Ok()
    {
      T.RemoveValid(State(), cfg, e);
      Remove(e);
    }

    /** recent_entry_reap */
    method Reap(cutoff: Stamp) returns (outside: bool)
      requires Ok() && lru != []
      modifies this`entries, this`lru, this`iphash, this`store
      ensures State() == T.Reap(old(State()), cfg, cutoff) && outside == T.Outside(old(State()))
      ensures Ok()
    {
      var e := lru[0];
      assert e in store && e.Value() == store[e] && R.Shape(store[e].ring, mask);
      outside := e.index == 0;
      var newest := if outside then cfg.before(e.Value()) else e.stamps[e.index - 1];
      if TimeAfter(cutoff, newest) {
        Delete(e);
      }
    }

    method FlushChain(i: nat)
      requires Ok() && i < |iphash|
      modifies this`entries, this`lru, this`iphash, this`store
      ensures Ok() && iphash[i] == []
      ensures forall b :: 0 <= b < |iphash| && old(iphash[b]) == [] ==> iphash[b] == []
    {
      hide Mirrored, T.HashSize, T.BucketOf, R.Shape, R.PowerOfTwo;
      while iphash[i] != []
        invariant Ok()
        invariant forall b :: 0 <= b < |iphash| && old(iphash[b]) == [] ==> iphash[b] == []
        decreases |iphash[i]|
      {
        var e := iphash[i][0];
        assert T.ChainOk(iphash[i], store, cfg, i) && e in iphash[i];
        Delete(e);
      }
    }

    /** recent_table_flush walks only the hash chains, yet leaves both lists empty. */
    method Flush()
      requires Ok()
      modifies this`entries, this`lru, this`iphash, this`store
      ensures State() == T.Empty(cfg, mask)
      ensures Ok()
    {
      var i := 0;
      while i < T.HashSize(cfg.listTot)
        invariant Ok() && 0 <= i <= |iphash|
        invariant forall b :: 0 <= b < i ==> iphash[b] == []
      {
        FlushChain(i);
        i := i + 1;
      }
      T.ChainsGone(State(), cfg);
    }

    /** The growth in recent_mt_check of a table that is already there. */
    method Grow(newMask: nat)
      requires Ok() && newMask < 256 && R.PowerOfTwo(newMask + 1)
      modifies this
      ensures State() == GrowTo(old(State()), cfg, newMask)
      ensures Ok()
    {
      if newMask > mask {
        Flush();
        mask := newMask;
        T.EmptyValid<RecentEntry>(cfg, newMask);
      }
    }

    /** CHECK and UPDATE on a found entry. */
    method Test(e: RecentEntry, rule: Rule, ttl: nat, now: Stamp) returns (verdict: bool, outside: bool, dangling: bool)
      requires Ok() && Accepted(rule) && e in store
      modifies this`entries, this`lru, this`iphash, this`store, e, e.stamps
      ensures TestFound(old(State()), cfg, rule, e, ttl, now) == Outcome(State(), verdict, false, outside, dangling)
      ensures Ok()
    {
      hide Mirrored, T.Touch, T.Remove, Cutoff, Span;
      Member(e);
      verdict := rule.invert;
      var cutoff := Cutoff(now, Span(rule.seconds, cfg.hz));
      var hit := e.Seen(cutoff, rule.seconds, rule.hitCount);
      if hit {
        verdict := !verdict;
      }
      outside, dangling := false, false;
      if rule.flags.reap {
        outside := Reap(cutoff);
      }
      if rule.flags.update && verdict {
        if e in lru {
          Update(e, now, ttl);
        } else {
          dangling := true;
        }
      }
    }

    method Hit(e: RecentEntry, rule: Rule, ttl: nat, now: Stamp) returns (verdict: bool, outside: bool, dangling: bool)
      requires Ok() && Accepted(rule) && e in store
      modifies this`entries, this`lru, this`iphash, this`store, e, e.stamps
      ensures MatchFound(old(State()), cfg, rule, e, ttl, now) == Outcome(State(), verdict, false, outside, dangling)
      ensures Ok()
    {
      verdict, outside, dangling := rule.invert, false, false;
      if rule.flags.set_ {
        verdict := !verdict;
        Update(e, now, ttl);
      } else if rule.flags.remove {
        Delete(e);
        verdict := !verdict;
      } else {
        verdict, outside, dangling := Test(e, rule, ttl, now);
      }
    }

    method Miss(rule: Rule, key: T.Key, ttl: nat, now: Stamp) returns (verdict: bool, ghost alloc: Alloc<RecentEntry>)
      requires Ok() && Accepted(rule)
      modifies this`entries, this`lru, this`iphash, this`store, this`Repr
      ensures Fits(alloc, old(State())) && (rule.flags.set_ ==> alloc.Memory?)
      ensures verdict == (rule.flags.set_ != rule.invert)
      ensures State() == if rule.flags.set_ then MatchModel.Init(old(State()), cfg, key, ttl, now, alloc) else old(State())
      ensures Ok() && fresh(Repr - old(Repr))
    {
      verdict, alloc := rule.invert, NoMemory;
      if rule.flags.set_ {
        var e := Init(key, ttl, now);
        alloc := Memory(e, e.stamps[..]);
        verdict := !verdict;
      }
    }

    /** recent_mt */
    method Match(rule: Rule, key: T.Key, ttl: nat, now: Stamp)
      returns (verdict: bool, outside: bool, dangling: bool, ghost alloc: Alloc<RecentEntry>)
      requires Ok() && Accepted(rule)
      modifies this`entries, this`lru, this`iphash, this`store, this`Repr, Repr
      ensures Fits(alloc, old(State()))
      ensures MatchModel.Match(old(State()), cfg, rule, key, ttl, now, alloc)
              == Outcome(State(), verdict, false, outside, dangling)
      ensures Ok() && fresh(Repr - old(Repr))
    {
      hide T.Valid, T.Lookup, Accepted, MatchFound, MatchModel.Init;
      var e := Lookup(key, if rule.flags.ttl then ttl else 0);
      if e != null {
        verdict, outside, dangling := Hit(e, rule, ttl, now);
        alloc := NoMemory;
      } else {
        verdict, alloc := Miss(rule, key, ttl, now);
        outside, dangling := false, false;
      }
    }

    // -------------------------------------------------------------------------
    // recent_mt_proc_write

    /** The token loop that ends both branches of the "*" command. */
    method UpdateAll(e: RecentEntry, tokens: seq<string>)
      requires Ok() && e in store
      modifies this`lru, this`store, e, e.stamps
      ensures State() == P.TouchAll(old(State()), cfg, e, P.Numbers(tokens))
      ensures Ok()
    {
      hide T.Touch, T.Valid, Number, T.HashSize, R.Shape, R.PowerOfTwo, P.Numbers, P.TouchAll, Mirrored;
      var i := 0;
      assert tokens[0..] == tokens;
      Member(e);
      while i < |tokens|
        invariant 0 <= i <= |tokens|
        invariant Ok() && e in store && e.Value() == store[e]
        invariant R.Shape(store[e].ring, mask) && mask < 256 && R.PowerOfTwo(mask + 1)
        invariant P.TouchAll(State(), cfg, e, P.Numbers(tokens[i..]))
                  == P.TouchAll(old(State()), cfg, e, P.Numbers(tokens))
      {
        var n := Number(tokens[i], WORD - 1);
        P.NumbersNext(tokens, i);
        if n.Some? {
          P.TouchAllNext(State(), cfg, e, n.value, P.Numbers(tokens[i + 1..]));
          Update(e, n.value, e.ttl);
          Member(e);
        }
        i := i + 1;
      }
      P.NoNumbers(State(), cfg, e, tokens);
    }

    /** The "*" command for an address that has no entry. */
    method RestoreNew(key: T.Key, tokens: seq<string>, size: nat) returns (reply: P.Reply, ghost alloc: Alloc<RecentEntry>)
      requires Ok() && T.Lookup(State(), cfg, key, 0).None?
      modifies this`entries, this`lru, this`iphash, this`store, this`Repr
      ensures Fits(alloc, old(State()))
      ensures P.Restore(old(State()), cfg, key, tokens, size, alloc) == P.Written(State(), reply, false)
      ensures Ok() && fresh(Repr - old(Repr))
    {
      hide Mirrored, T.Touch, T.Lookup, T.HashSize, T.BucketOf, T.MakeRoom, T.Append, P.TouchAll, P.Numbers;
      alloc, reply := NoMemory, P.Wrote(size);
      if |tokens| == 0 {
        return;
      }
      var ttl := Number(tokens[0], 255);
      if ttl.None? {
        return P.Einval, alloc;
      }
      if |tokens| == 1 {
        return;
      }
      var first := Number(tokens[1], WORD - 1);
      if first.None? {
        if P.Numbers(tokens[2..]) != [] {
          reply := P.Fault;
        }
        return;
      }
      var e := Init(key, ttl.value, first.value);
      alloc := Memory(e, e.stamps[..]);
      UpdateAll(e, tokens[2..]);
    }

    method ProcWrite(text: string, now: Stamp) returns (reply: P.Reply, ghost alloc: Alloc<RecentEntry>)
      requires Ok()
      modifies this`entries, this`lru, this`iphash, this`store, this`Repr, Repr
      ensures Fits(alloc, old(State()))
      ensures P.ProcWrite(old(State()), cfg, text, now, alloc) == P.Written(State(), reply, false)
      ensures Ok() && fresh(Repr - old(Repr))
    {
      alloc, reply := NoMemory, P.Einval;
      if |text| > P.MAX_WRITE {
        return;
      }
      if text == "" {
        return P.Wrote(0), alloc;
      }
      if text[0] == '/' {
        Flush();
        reply := P.Wrote(|text|);
      } else if text[0] == '+' || text[0] == '-' {
        reply, alloc := WriteOne(text, now);
      } else if text[0] == '*' {
        reply, alloc := WriteAll(text, now);
      }
    }

    /** "+addr" and "-addr" */
    method WriteOne(text: string, now: Stamp) returns (reply: P.Reply, ghost alloc: Alloc<RecentEntry>)
      requires Ok() && 0 < |text| <= P.MAX_WRITE && (text[0] == '+' || text[0] == '-')
      modifies this`entries, this`lru, this`iphash, this`store, this`Repr, Repr
      ensures Fits(alloc, old(State()))
      ensures P.ProcWrite(old(State()), cfg, text, now, alloc) == P.Written(State(), reply, false)
      ensures Ok() && fresh(Repr - old(Repr))
    {
      alloc, reply := NoMemory, P.Wrote(|text|);
      var key := P.ParseKey(cfg, text[1..]);
      if key.None? {
        return P.Einval, alloc;
      }
      if text[0] == '+' {
        alloc := Add(key.value, now);
      } else {
        Forget(key.value);
      }
    }

    method Add(key: T.Key, now: Stamp) returns (ghost alloc: Alloc<RecentEntry>)
      requires Ok()
      modifies this`entries, this`lru, this`iphash, this`store, this`Repr, Repr
      ensures Fits(alloc, old(State())) && State() == ProcAdd(old(State()), cfg, key, now, alloc)
      ensures T.Lookup(old(State()), cfg, key, 0).None? ==> alloc.Memory?
      ensures Ok() && fresh(Repr - old(Repr))
    {
      hide Mirrored, T.Lookup, T.Touch, T.Valid, MatchModel.Init;
      alloc := NoMemory;
      var e := Lookup(key, 0);
      if e == null {
        e := Init(key, 0, now);
        alloc := Memory(e, e.stamps[..]);
      } else {
        Member(e);
        Update(e, now, e.ttl);
      }
    }

    method Forget(key: T.Key)
      requires Ok()
      modifies this`entries, this`lru, this`iphash, this`store
      ensures State() == ProcRemove(old(State()), cfg, key)
      ensures Ok()
    {
      var e := Lookup(key, 0);
      if e != null {
        Delete(e);
      }
    }

    /** "*addr;ttl;stamp;...;" */
    method WriteAll(text: string, now: Stamp) returns (reply: P.Reply, ghost alloc: Alloc<RecentEntry>)
      requires Ok() && 0 < |text| <= P.MAX_WRITE && text[0] == '*'
      modifies this`entries, this`lru, this`iphash, this`store, this`Repr, Repr
      ensures Fits(alloc, old(State()))
      ensures P.ProcWrite(old(State()), cfg, text, now, alloc) == P.Written(State(), reply, false)
      ensures Ok() && fresh(Repr - old(Repr))
    {
      alloc, reply := NoMemory, P.Fault;
      var tokens := Split(text[1..], ';');
      if |tokens| == 1 {
        if text == "*" {
          reply := P.Einval;
        }
        return;
      }
      var key := P.RestoreKey(cfg, tokens);
      if key.None? {
        return P.Einval, alloc;
      }
      var e := Lookup(key.value, 0);
      if e == null {
        reply, alloc := RestoreNew(key.value, tokens[1..], |text|);
      } else {
        UpdateAll(e, tokens[2..]);
        assert tokens[1..][1..] == tokens[2..];
        reply := P.Wrote(|text|);
      }
    }

    // -------------------------------------------------------------------------
    // seq_file iteration

    /** All entries in the order the proc file lists them. */
    ghost function Listing(): seq<RecentEntry>
      reads this
    {
      Flatten(iphash)
    }

    /** e sits in the given bucket, and k entries are listed before it. */
    ghost predicate Placed(e: RecentEntry, bucket: nat, k: nat)
      reads this
    {
      && bucket < |iphash|
      && var j := k - |Flatten(iphash[..bucket])|; 0 <= j < |iphash[bucket]| && iphash[bucket][j] == e
    }

    lemma PlacedIsListed(e: RecentEntry, bucket: nat, k: nat)
      requires Placed(e, bucket, k)
      ensures bucket < |iphash| && k < |Listing()| && Listing()[k] == e
    {
      FlattenNext(iphash, bucket);
      FlattenPrefix(iphash, bucket + 1);
    }

    /** recent_seq_start */
    method SeqStart(pos: nat) returns (e: RecentEntry?, bucket: nat)
      requires |iphash| == T.HashSize(cfg.listTot)
      ensures if pos < |Listing()| then e == Listing()[pos] && Placed(e, bucket, pos) else e == null
    {
      var p := pos;
      bucket := 0;
      assert iphash[..0] == [];
      while bucket < T.HashSize(cfg.listTot)
        invariant 0 <= bucket <= |iphash|
        invariant p == pos - |Flatten(iphash[..bucket])| >= 0
      {
        FlattenNext(iphash, bucket);
        var chain, i := iphash[bucket], 0;
        while i < |chain|
          invariant 0 <= i <= |chain|
          invariant p == pos - |Flatten(iphash[..bucket])| - i >= 0
        {
          if p == 0 {
            e := chain[i];
            PlacedIsListed(e, bucket, pos);
            return;
          }
          p, i := p - 1, i + 1;
        }
        bucket := bucket + 1;
      }
      assert iphash[..bucket] == iphash;
      e := null;
    }

    /** The place of e in its chain, where e->list.next starts from. */
    static method IndexIn(chain: seq<RecentEntry>, e: RecentEntry) returns (j: nat)
      requires e in chain
      ensures j < |chain| && chain[j] == e
    {
      j := 0;
      while chain[j] != e
        invariant 0 <= j < |chain| && e in chain[j..]
        decreases |chain| - j
      {
        assert chain[j..] == [chain[j]] + chain[j + 1..];
        j := j + 1;
      }
    }

    /** recent_seq_next; pos advances only when there is a next entry. */
    method SeqNext(e: RecentEntry, bucket: nat, pos: nat, ghost k: nat)
      returns (next: RecentEntry?, bucket': nat, pos': nat)
      requires |iphash| == T.HashSize(cfg.listTot) && Placed(e, bucket, k) && Distinct(iphash[bucket])
      ensures if k + 1 < |Listing()| then
                next == Listing()[k + 1] && Placed(next, bucket', k + 1) && pos' == pos + 1
              else next == null && pos' == pos
    {
      bucket' := bucket;
      var j := IndexIn(iphash[bucket], e);
      var head := j + 1;
      while head == |iphash[bucket']|
        invariant bucket' < |iphash| && 0 <= head <= |iphash[bucket']|
        invariant k + 1 == |Flatten(iphash[..bucket'])| + head
        decreases |iphash| - bucket'
      {
        FlattenNext(iphash, bucket');
        bucket' := bucket' + 1;
        if bucket' >= T.HashSize(cfg.listTot) {
          assert iphash[..bucket'] == iphash;
          return null, bucket', pos;
        }
        head := 0;
      }
      next, pos' := iphash[bucket'][head], pos + 1;
      PlacedIsListed(next, bucket', k + 1);
    }

    /** A read of at most n rows from a position, as seq_read makes it; pos is where the listing goes on, or its
        last entry once it has ended.  So on an unchanged table reads that continue where the last one stopped
        (Seqs.SlicesContinue) list every entry, and list it once (TableModel.ChainsAreLru). */
    method Read(start: nat, n: nat) returns (rows: seq<RecentEntry>, pos: nat)
      requires |iphash| == T.HashSize(cfg.listTot)
      requires forall b :: 0 <= b < |iphash| ==> Distinct(iphash[b])
      ensures rows == Slice(Listing(), start, n)
      ensures pos == if start + |rows| < |Listing()| || rows == [] then start + |rows| else start + |rows| - 1
    {
      hide Flatten, Placed, Slice, T.HashSize;
      ghost var all := Listing();
      var e, bucket := SeqStart(start);
      rows, pos := [], start;
      SliceEndsHere(all, start, 0, n);
      while e != null && |rows| < n
        invariant |rows| <= n && rows == Slice(all, start, |rows|)
        invariant e != null ==> Placed(e, bucket, start + |rows|) && pos == start + |rows| < |all|
        invariant e == null ==> rows == Slice(all, start, n) && start + |rows| >= |all|
        invariant e == null ==> pos == if rows == [] then start else start + |rows| - 1
        decreases n - |rows|
      {
        ghost var k := start + |rows|;
        PlacedIsListed(e, bucket, k);
        SliceNext(all, start, |rows|);
        rows := rows + [e];
        SliceEndsHere(all, start, |rows|, n);
        assert Distinct(iphash[bucket]);
        e, bucket, pos := SeqNext(e, bucket, pos, k);
      }
    }
  }
}
