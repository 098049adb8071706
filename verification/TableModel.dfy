// A recent_table as a value: hash buckets, LRU list and the entries both link together.
// P stands for the address of an entry; XtRecent instantiates it with heap objects.
module TableModel {
  import Division
  import opened Seqs
  import opened Jiffies
  import R = Ring

  datatype Family = IPv4 | IPv6

  datatype Key = Key(family: Family, addr: seq<nat>)

  datatype Entry = Entry(key: Key, ttl: nat, ring: R.Ring)

  /** ip_list_tot, the keyed hash before masking, the kernel's HZ, its IPv6 address parser, and the word in
      memory right before an entry's stamps, which overlaps its family, ttl, index and count. */
  datatype Config = Config(listTot: nat, hash: Key -> nat, hz: nat, in6: string -> Option<seq<nat>>, before: Entry -> Stamp)

  datatype Table<P> = Table(mask: nat, entries: int, buckets: seq<seq<P>>, lru: seq<P>, store: map<P, Entry>)

  /** 1 << fls(n) */
  function HashSize(n: nat): (size: nat)
    ensures n < size && (n > 0 ==> size <= 2 * n)
  {
    if n == 0 then 1 else 2 * HashSize(n / 2)
  }

  /** hash & (ip_list_hash_size - 1) for a power-of-two size. */
  function BucketOf(cfg: Config, key: Key): (b: nat)
    ensures b < HashSize(cfg.listTot)
  {
    cfg.hash(key) % HashSize(cfg.listTot)
  }

  /** The size is a power of two, so that its remainder is the low bits of the hash. */
  lemma {:induction false} LowBits(hash: nat, n: nat)
    ensures R.And(hash, HashSize(n) - 1) == hash % HashSize(n)
  {
    if hash == 0 {
      Division.Unique(0, HashSize(n), 0, 0);
    } else if n != 0 {
      var half := HashSize(n / 2);
      assert HashSize(n) == 2 * half;
      LowBits(hash / 2, n / 2);
      hide R.And, HashSize;
      Division.HalveModulo(hash, half);
      AndOfDouble(hash, half);
    }
  }

  /** The bucket of a key, as the kernel masks it. */
  lemma BucketIsMasked(cfg: Config, key: Key)
    ensures BucketOf(cfg, key) == R.And(cfg.hash(key), HashSize(cfg.listTot) - 1)
  {
    LowBits(cfg.hash(key), cfg.listTot);
  }

  /** An entry is linked into that bucket. */
  lemma EntryInBucket<P>(t: Table<P>, cfg: Config, p: P)
    requires Valid(t, cfg) && p in t.store
    ensures var b := R.And(cfg.hash(t.store[p].key), HashSize(cfg.listTot) - 1);
            b < |t.buckets| && p in t.buckets[b] && forall c :: 0 <= c < |t.buckets| && p in t.buckets[c] ==> c == b
  {
    BucketIsMasked(cfg, t.store[p].key);
    forall c | 0 <= c < |t.buckets| && p in t.buckets[c] ensures c == BucketOf(cfg, t.store[p].key) {
      assert ChainOk(t.buckets[c], t.store, cfg, c);
    }
  }

  lemma AndOfDouble(hash: nat, half: nat)
    requires half > 0 && hash > 0
    ensures R.And(hash, 2 * half - 1) == hash % 2 + 2 * R.And(hash / 2, half - 1)
  {
    assert (2 * half - 1) % 2 == 1 && (2 * half - 1) / 2 == half - 1;
  }

  function Empty<P>(cfg: Config, mask: nat): Table<P> {
    Table(mask, 0, seq(HashSize(cfg.listTot), _ => []), [], map[])
  }

  predicate Matches(e: Entry, key: Key, ttl: nat) {
    e.key == key && (ttl == e.ttl || ttl == 0 || e.ttl == 0)
  }

  /** recent_entry_lookup's walk along one chain. */
  function Scan<P(==)>(chain: seq<P>, store: map<P, Entry>, key: Key, ttl: nat): (r: Option<P>)
    ensures r.Some? ==> r.value in chain && r.value in store && Matches(store[r.value], key, ttl)
    ensures r.None? ==> forall p | p in chain && p in store :: !Matches(store[p], key, ttl)
  {
    if chain == [] then None
    else if chain[0] in store && Matches(store[chain[0]], key, ttl) then Some(chain[0])
    else Scan(chain[1..], store, key, ttl)
  }

  function Lookup<P(==)>(t: Table<P>, cfg: Config, key: Key, ttl: nat): Option<P>
    requires |t.buckets| == HashSize(cfg.listTot)
  {
    Scan(t.buckets[BucketOf(cfg, key)], t.store, key, ttl)
  }

  /** recent_entry_remove */
  function Remove<P(==)>(t: Table<P>, cfg: Config, p: P): Table<P>
    requires |t.buckets| == HashSize(cfg.listTot) && p in t.store
  {
    var b := BucketOf(cfg, t.store[p].key);
    Table(t.mask, t.entries - 1, t.buckets[b := Without(t.buckets[b], p)], Without(t.lru, p), t.store - {p})
  }

  /** list_add_tail of a new entry to its chain and to the LRU list. */
  function Append<P(==)>(t: Table<P>, cfg: Config, p: P, e: Entry): Table<P>
    requires |t.buckets| == HashSize(cfg.listTot)
  {
    var b := BucketOf(cfg, e.key);
    Table(t.mask, t.entries + 1, t.buckets[b := t.buckets[b] + [p]], t.lru + [p], t.store[p := e])
  }

  /** Enough of Valid to find the table's lists. */
  predicate Linked<P(==)>(t: Table<P>, cfg: Config) {
    |t.buckets| == HashSize(cfg.listTot) && (t.lru != [] ==> t.lru[0] in t.store)
  }

  /** The eviction at the start of recent_entry_init. */
  function MakeRoom<P(==)>(t: Table<P>, cfg: Config): Table<P>
    requires Linked(t, cfg)
  {
    if t.entries >= cfg.listTot && t.lru != [] then Remove(t, cfg, t.lru[0]) else t
  }

  /** recent_entry_init */
  function Insert<P(==)>(t: Table<P>, cfg: Config, p: P, e: Entry): Table<P>
    requires Linked(t, cfg)
  {
    Append(MakeRoom(t, cfg), cfg, p, e)
  }

  /** recent_entry_update, and the ttl the caller may set afterwards. */
  function Touch<P(==)>(t: Table<P>, cfg: Config, p: P, s: Stamp, ttl: nat): Table<P>
    requires p in t.store && R.Shape(t.store[p].ring, t.mask) && t.mask < 256 && R.PowerOfTwo(t.mask + 1)
  {
    var e := t.store[p];
    t.(lru := Without(t.lru, p) + [p], store := t.store[p := Entry(e.key, ttl, R.Put(e.ring, t.mask, s))])
  }

  /** recent_entry_reap: drops the LRU head when its stamp at index - 1 is before the cutoff. */
  function Reap<P(==)>(t: Table<P>, cfg: Config, cutoff: Stamp): Table<P>
    requires Valid(t, cfg) && t.lru != []
  {
    if TimeAfter(cutoff, Newest(t.store[t.lru[0]], cfg)) then Remove(t, cfg, t.lru[0]) else t
  }

  /** stamps[index - 1], which lies before the array when index is 0. */
  function Newest(e: Entry, cfg: Config): Stamp
    requires e.ring.index <= |e.ring.slots|
  {
    if e.ring.index == 0 then cfg.before(e) else e.ring.slots[e.ring.index - 1]
  }

  /** A reap would read before the stamps of the LRU head. */
  predicate Outside<P(==)>(t: Table<P>) {
    t.lru != [] && t.lru[0] in t.store && t.store[t.lru[0]].ring.index == 0
  }

  // ---------------------------------------------------------------------------
  // The representation invariant

  /** One chain: linked once each, live, and hashed to this bucket. */
  ghost predicate ChainOk<P>(chain: seq<P>, store: map<P, Entry>, cfg: Config, b: nat) {
    && Distinct(chain)
    && forall p | p in chain :: p in store && BucketOf(cfg, store[p].key) == b
  }

  ghost predicate Valid<P>(t: Table<P>, cfg: Config) {
    && t.mask < 256 && R.PowerOfTwo(t.mask + 1)
    && |t.buckets| == HashSize(cfg.listTot)
    && (forall b :: 0 <= b < |t.buckets| ==> ChainOk(t.buckets[b], t.store, cfg, b))
    && (forall p | p in t.store :: p in t.buckets[BucketOf(cfg, t.store[p].key)])
    && Distinct(t.lru)
    && (forall p | p in t.lru :: p in t.store) && (forall p | p in t.store :: p in t.lru)
    && t.entries == |t.lru| <= cfg.listTot
    && forall p | p in t.store :: R.Shape(t.store[p].ring, t.mask)
  }

  lemma EmptyValid<P>(cfg: Config, mask: nat)
    requires mask < 256 && R.PowerOfTwo(mask + 1)
    ensures Valid(Empty<P>(cfg, mask), cfg)
  {
  }

  /** Emptying every chain empties the LRU list as well. */
  lemma ChainsGone<P>(t: Table<P>, cfg: Config)
    requires Valid(t, cfg) && forall b :: 0 <= b < |t.buckets| ==> t.buckets[b] == []
    ensures t == Empty(cfg, t.mask)
  {
    HeadIn(t.lru);
    if p :| p in t.store {
      assert false;
    }
  }

  lemma RemoveValid<P>(t: Table<P>, cfg: Config, p: P)
    requires Valid(t, cfg) && p in t.store
    ensures Valid(Remove(t, cfg, p), cfg)
  {
  }

  lemma AppendValid<P>(t: Table<P>, cfg: Config, p: P, e: Entry)
    requires Valid(t, cfg) && p !in t.store && t.entries < cfg.listTot && R.Shape(e.ring, t.mask)
    ensures Valid(Append(t, cfg, p, e), cfg)
  {
  }

  lemma TouchValid<P>(t: Table<P>, cfg: Config, p: P, s: Stamp, ttl: nat)
    requires Valid(t, cfg) && p in t.store
    ensures Valid(Touch(t, cfg, p, s, ttl), cfg)
  {
    R.PutShape(t.store[p].ring, t.mask, s);
  }

  // ---------------------------------------------------------------------------
  // The order in which the proc file lists entries: chain after chain

  lemma {:induction false} FlattenDistinct<P>(buckets: seq<seq<P>>, store: map<P, Entry>, cfg: Config, from: nat)
    requires forall b :: 0 <= b < |buckets| ==> ChainOk(buckets[b], store, cfg, from + b)
    ensures Distinct(Flatten(buckets))
    ensures forall p | p in Flatten(buckets) :: p in store && from <= BucketOf(cfg, store[p].key) < from + |buckets|
  {
    if buckets != [] {
      var rest := buckets[1..];
      forall b | 0 <= b < |rest| ensures ChainOk(rest[b], store, cfg, from + 1 + b) {
        assert rest[b] == buckets[b + 1];
      }
      FlattenDistinct(rest, store, cfg, from + 1);
      assert ChainOk(buckets[0], store, cfg, from + 0);
      DistinctConcat(buckets[0], Flatten(rest));
    }
  }

  lemma {:induction false} InFlatten<T>(ss: seq<seq<T>>, b: nat, x: T)
    requires b < |ss| && x in ss[b]
    ensures x in Flatten(ss)
  {
    if b > 0 {
      assert ss[1..][b - 1] == ss[b];
      InFlatten(ss[1..], b - 1, x);
    }
  }

  /** The chains and the LRU list hold the same entries, once each. */
  lemma ChainsAreLru<P>(t: Table<P>, cfg: Config)
    requires Valid(t, cfg)
    ensures Distinct(Flatten(t.buckets))
    ensures multiset(Flatten(t.buckets)) == multiset(t.lru) && |Flatten(t.buckets)| == t.entries
  {
    FlattenDistinct(t.buckets, t.store, cfg, 0);
    forall p | p in t.lru ensures p in Flatten(t.buckets) {
      InFlatten(t.buckets, BucketOf(cfg, t.store[p].key), p);
    }
    SameElements(Flatten(t.buckets), t.lru);
  }
}
