// The /proc/net/xt_recent/<name> file: the rows it shows and the commands it takes.
module ProcFile {
  import Division
  import opened Seqs
  import opened Jiffies
  import opened Text
  import opened TableModel
  import opened MatchModel
  import R = Ring

  // ---------------------------------------------------------------------------
  // Reading (recent_seq_show)

  function Decimals(s: seq<nat>): (r: seq<string>)
    ensures |r| == |s|
    ensures forall i :: 0 <= i < |s| ==> r[i] == Decimal(s[i])
  {
    seq(|s|, i requires 0 <= i < |s| => Decimal(s[i]))
  }

  /** stamps[(index - 1) & mask] */
  function LastSeen(r: R.Ring, mask: nat): Stamp
    requires R.Shape(r, mask) && mask < 256 && R.PowerOfTwo(mask + 1)
  {
    R.AndIsModulo((r.index + 255) % 256, mask);
    r.slots[R.And((r.index + 255) % 256, mask)]
  }

  lemma LastSeenSlot(r: R.Ring, mask: nat)
    requires R.Shape(r, mask) && mask < 255 && R.PowerOfTwo(mask + 1)
    ensures LastSeen(r, mask) == r.slots[r.index - 1]
  {
    R.AndIsModulo((r.index + 255) % 256, mask);
    assert (r.index + 255) % 256 == r.index - 1;
    Division.Unique(r.index - 1, mask + 1, 0, r.index - 1);
  }

  /** " tag value", followed by the rest of the line. */
  function Field(tag: string, value: string, rest: string): string {
    " " + (tag + (value + rest))
  }

  /** One line, without its newline. */
  function Row(e: Entry, mask: nat): string
    requires R.Shape(e.ring, mask) && mask < 256 && R.PowerOfTwo(mask + 1)
    requires e.key.family == IPv4 && IsIPv4(e.key.addr)
  {
    "src=" + (Dotted(e.key.addr) +
              Field("ttl: ", Decimal(e.ttl),
                    Field("last_seen: ", Decimal(LastSeen(e.ring, mask)),
                          Field("oldest_pkt: ", Decimal(e.ring.index),
                                " " + Join(Decimals(R.Visible(e.ring)), ", ")))))
  }

  // ---------------------------------------------------------------------------
  // Writing (recent_mt_proc_write)

  /** Fault: the kernel would follow a null pointer. */
  datatype Reply = Wrote(size: nat) | Einval | Fault

  /** starved: there was no memory for a new entry. */
  datatype Written<P> = Written(table: Table<P>, reply: Reply, starved: bool)

  /** ip + ttl + time stamps */
  const MAX_WRITE := 32 + 5 + 12 * 32

  function UpTo(s: string, c: char): string {
    if s == "" || s[0] == c then "" else [s[0]] + UpTo(s[1..], c)
  }

  /** Addresses of the "+" and "-" commands. */
  function ParseKey(cfg: Config, s: string): Option<Key> {
    if ':' in s then
      match cfg.in6(UpTo(s, '\n'))
      case Some(a) => Some(Key(IPv6, a))
      case None => None
    else
      match ParseIPv4(UpTo(s, '\n'))
      case Some(a) => Some(Key(IPv4, a))
      case None => None
  }

  /** The time stamps among the tokens; the rest are skipped. */
  function Numbers(tokens: seq<string>): seq<Stamp> {
    if tokens == [] then [] else
      match Number(tokens[0], WORD - 1)
      case Some(n) => [n] + Numbers(tokens[1..])
      case None => Numbers(tokens[1..])
  }

  function TouchAll<P(==)>(t: Table<P>, cfg: Config, p: P, stamps: seq<Stamp>): Table<P>
    requires p in t.store && R.Shape(t.store[p].ring, t.mask) && t.mask < 256 && R.PowerOfTwo(t.mask + 1)
    decreases stamps
  {
    if stamps == [] then t
    else
      R.PutShape(t.store[p].ring, t.mask, stamps[0]);
      TouchAll(Touch(t, cfg, p, stamps[0], t.store[p].ttl), cfg, p, stamps[1..])
  }

  lemma NumbersNext(tokens: seq<string>, i: nat)
    requires i < |tokens|
    ensures var n := Number(tokens[i], WORD - 1);
            Numbers(tokens[i..]) == if n.Some? then [n.value] + Numbers(tokens[i + 1..]) else Numbers(tokens[i + 1..])
  {
    assert tokens[i..][0] == tokens[i] && tokens[i..][1..] == tokens[i + 1..];
  }

  lemma NoNumbers<P>(t: Table<P>, cfg: Config, p: P, tokens: seq<string>)
    requires p in t.store && R.Shape(t.store[p].ring, t.mask) && t.mask < 256 && R.PowerOfTwo(t.mask + 1)
    ensures TouchAll(t, cfg, p, Numbers(tokens[|tokens|..])) == t
  {
  }

  lemma TouchAllNext<P>(t: Table<P>, cfg: Config, p: P, s: Stamp, more: seq<Stamp>)
    requires p in t.store && R.Shape(t.store[p].ring, t.mask) && t.mask < 256 && R.PowerOfTwo(t.mask + 1)
    ensures var u := Touch(t, cfg, p, s, t.store[p].ttl);
            && p in u.store && R.Shape(u.store[p].ring, u.mask) && u.mask == t.mask
            && TouchAll(t, cfg, p, [s] + more) == TouchAll(u, cfg, p, more)
  {
    R.PutShape(t.store[p].ring, t.mask, s);
    assert ([s] + more)[1..] == more;
  }

  /** The "*" command once the address is known; tokens are what follows it. */
  function Restore<P(==)>(t: Table<P>, cfg: Config, key: Key, tokens: seq<string>, size: nat, alloc: Alloc<P>): Written<P>
    requires Valid(t, cfg) && 0 < cfg.listTot && Fits(alloc, t)
  {
    match Lookup(t, cfg, key, 0)
    case Some(q) =>
      Written(if tokens == [] then t else TouchAll(t, cfg, q, Numbers(tokens[1..])), Wrote(size), false)
    case None =>
      if tokens == [] then Written(t, Wrote(size), false)
      else match Number(tokens[0], 255)
        case None => Written(t, Einval, false)
        case Some(ttl) =>
          if |tokens| == 1 then Written(t, Wrote(size), false)
          else match Number(tokens[1], WORD - 1)
            case None => Written(t, if Numbers(tokens[2..]) == [] then Wrote(size) else Fault, false)
            case Some(first) =>
              var t' := Init(t, cfg, key, ttl, first, alloc);
              InitValid(t, cfg, key, ttl, first, alloc);
              var more := Numbers(tokens[2..]);
              if alloc.NoMemory? then Written(t', if more == [] then Wrote(size) else Fault, true)
              else Written(TouchAll(t', cfg, alloc.p, more), Wrote(size), false)
  }

  /** In the "*" command the address family is decided by what follows the address. */
  function RestoreKey(cfg: Config, tokens: seq<string>): Option<Key>
    requires tokens != []
  {
    if exists i :: 1 <= i < |tokens| && ':' in tokens[i] then
      match cfg.in6(tokens[0])
      case Some(a) => Some(Key(IPv6, a))
      case None => None
    else
      match ParseIPv4(tokens[0])
      case Some(a) => Some(Key(IPv4, a))
      case None => None
  }

  function ProcWrite<P(==)>(t: Table<P>, cfg: Config, text: string, now: Stamp, alloc: Alloc<P>): Written<P>
    requires Valid(t, cfg) && 0 < cfg.listTot && Fits(alloc, t)
  {
    if |text| > MAX_WRITE then Written(t, Einval, false)
    else if text == "" then Written(t, Wrote(0), false)
    else if text[0] == '/' then Written(Empty(cfg, t.mask), Wrote(|text|), false)
    else if text[0] == '+' || text[0] == '-' then
      match ParseKey(cfg, text[1..])
      case None => Written(t, Einval, false)
      case Some(key) =>
        if text[0] == '-' then Written(ProcRemove(t, cfg, key), Wrote(|text|), false)
        else Written(ProcAdd(t, cfg, key, now, alloc), Wrote(|text|), Lookup(t, cfg, key, 0).None? && alloc.NoMemory?)
    else if text[0] == '*' then
      var tokens := Split(text[1..], ';');
      if |tokens| == 1 then Written(t, if text == "*" then Einval else Fault, false)
      else
        match RestoreKey(cfg, tokens)
        case None => Written(t, Einval, false)
        case Some(key) => Restore(t, cfg, key, tokens[1..], |text|, alloc)
    else Written(t, Einval, false)
  }
}
