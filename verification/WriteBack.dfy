// Writing replicated entries back into a kernel table (base_sync::write_recent_all and
// write_recent_data).
module WriteBack {
  import opened Seqs
  import opened Jiffies
  import opened Text
  import opened TableModel
  import opened MatchModel
  import opened LogModel
  import opened ProcFile
  import opened XtRecent
  import opened XtRecentProc
  import R = Ring

  // ---------------------------------------------------------------------------
  // std::sort

  predicate Ascending(s: seq<nat>) {
    forall i, j :: 0 <= i <= j < |s| ==> s[i] <= s[j]
  }

  function InsertSorted(x: nat, s: seq<nat>): (r: seq<nat>)
    ensures multiset(r) == multiset{x} + multiset(s) && |r| == |s| + 1
    ensures forall y | y in r :: y == x || y in s
  {
    if s == [] then [x]
    else if x <= s[0] then [x] + s
    else
      assert s == [s[0]] + s[1..];
      [s[0]] + InsertSorted(x, s[1..])
  }

  lemma ConsAscending(x: nat, s: seq<nat>)
    requires Ascending(s) && forall y | y in s :: x <= y
    ensures Ascending([x] + s)
  {
    var r := [x] + s;
    forall i, j | 0 <= i <= j < |r| ensures r[i] <= r[j] {
      if i == 0 < j {
        assert s[j - 1] in s;
      }
    }
  }

  lemma {:induction false} InsertAscending(x: nat, s: seq<nat>)
    requires Ascending(s)
    ensures Ascending(InsertSorted(x, s))
  {
    if s == [] {
      assert InsertSorted(x, s) == [x];
    } else if x <= s[0] {
      ConsAscending(x, s);
    } else {
      InsertAscending(x, s[1..]);
      ConsAscending(s[0], InsertSorted(x, s[1..]));
    }
  }

  function Sorted(s: seq<nat>): (r: seq<nat>)
    ensures multiset(r) == multiset(s) && |r| == |s| && Ascending(r)
  {
    if s == [] then [] else
      assert s == [s[0]] + s[1..];
      InsertAscending(s[0], Sorted(s[1..]));
      InsertSorted(s[0], Sorted(s[1..]))
  }

  lemma SortedMembers(s: seq<nat>)
    ensures forall x | x in Sorted(s) :: x in s
  {
    forall x | x in Sorted(s) ensures x in s {
      assert x in multiset(Sorted(s));
    }
  }

  // ---------------------------------------------------------------------------
  // The command

  function Tokens(e: UserEntry): seq<string> {
    [Decimal(e.ttl)] + Decimals(Sorted(e.stamps)) + [""]
  }

  /** "*" ip ";" ttl ";" and every stamp followed by ";" */
  function Command(e: UserEntry): string {
    "*" + Join([e.srcIp] + Tokens(e), ";")
  }

  /** What user space gets from the kernel's rows. */
  predicate Plausible(e: UserEntry) {
    && e.ttl < 256
    && (forall i :: 0 <= i < |e.stamps| ==> e.stamps[i] < WORD)
    && ParseIPv4(e.srcIp).Some? && Dotted(ParseIPv4(e.srcIp).value) == e.srcIp
  }

  /** An entry has stamps to restore and its command fits the kernel's write buffer. */
  predicate Writable(e: UserEntry) {
    e.stamps != [] && |Command(e)| <= MAX_WRITE
  }

  function KeyOf(e: UserEntry): Key
    requires Plausible(e)
  {
    Key(IPv4, ParseIPv4(e.srcIp).value)
  }

  lemma NoSeparator(s: string, sep: char)
    requires AddressChars(s) && !IsDigit(sep) && sep != '.'
    ensures sep !in s
  {
  }

  lemma TokensClean(e: UserEntry, sep: char)
    requires !IsDigit(sep)
    ensures forall i :: 0 <= i < |Tokens(e)| ==> sep !in Tokens(e)[i]
  {
    forall i | 0 <= i < |Tokens(e)| ensures sep !in Tokens(e)[i] {
      assert AllDigits(Tokens(e)[i]);
    }
  }

  lemma CommandTokens(e: UserEntry)
    requires Plausible(e)
    ensures Split(Command(e)[1..], ';') == [e.srcIp] + Tokens(e)
    ensures forall cfg :: RestoreKey(cfg, [e.srcIp] + Tokens(e)) == Some(KeyOf(e))
  {
    DottedChars(ParseIPv4(e.srcIp).value);
    NoSeparator(e.srcIp, ';');
    TokensClean(e, ';');
    TokensClean(e, ':');
    SplitJoin([e.srcIp] + Tokens(e), ';');
    assert Command(e)[1..] == Join([e.srcIp] + Tokens(e), ";");
  }

  lemma {:induction false} NumbersOfDecimals(s: seq<nat>)
    requires forall i :: 0 <= i < |s| ==> s[i] < WORD
    ensures Numbers(Decimals(s) + [""]) == s
  {
    var tokens := Decimals(s) + [""];
    if s == [] {
      assert tokens == [""];
      assert tokens[1..] == [];
    } else {
      ValueOfDecimal(s[0]);
      assert tokens[1..] == Decimals(s[1..]) + [""];
      NumbersOfDecimals(s[1..]);
    }
  }

  // ---------------------------------------------------------------------------
  // What the command leaves in the kernel

  /** The stamps of a restored entry play the part of its history. */
  function Restored(e: UserEntry): Rec {
    Rec(e.ttl, Sorted(e.stamps))
  }

  lemma StampsOfStamps(s: seq<Stamp>)
    ensures R.Stamps(s) == s
  {
  }

  /** A ring after a series of stamps. */
  function PutAll(r: R.Ring, mask: nat, more: seq<Stamp>): R.Ring
    requires R.Shape(r, mask) && mask < 256 && R.PowerOfTwo(mask + 1)
    decreases more
  {
    if more == [] then r else
      R.PutShape(r, mask, more[0]);
      PutAll(R.Put(r, mask, more[0]), mask, more[1..])
  }

  lemma OneByOne<T>(h: seq<T>, more: seq<T>)
    requires more != []
    ensures h + [more[0]] + more[1..] == h + more
  {
  }

  lemma {:induction false} PutAllHolds(r: R.Ring, h: seq<Stamp>, mask: nat, more: seq<Stamp>)
    requires R.Holds(r, h, mask + 1) && R.Shape(r, mask) && mask < 256 && R.PowerOfTwo(mask + 1)
    ensures R.Holds(PutAll(r, mask, more), h + more, mask + 1) && R.Shape(PutAll(r, mask, more), mask)
    decreases more
  {
    hide R.Holds, R.Shape, R.Put, R.PowerOfTwo;
    if more == [] {
      assert h + more == h;
    } else {
      R.PutShape(r, mask, more[0]);
      R.PutHolds(r, h, mask, more[0]);
      OneByOne(h, more);
      PutAllHolds(R.Put(r, mask, more[0]), h + [more[0]], mask, more[1..]);
    }
  }

  /** Moving the last element to the end changes nothing. */
  lemma {:induction false} MoveLast<T>(s: seq<T>, x: T)
    requires x !in s
    ensures Without(s + [x], x) + [x] == s + [x]
  {
    if s == [] {
      assert s + [x] == [x];
    } else {
      assert (s + [x])[1..] == s[1..] + [x];
      MoveLast(s[1..], x);
    }
  }

  /** Stamping a new entry over and over is the same as linking it with all its stamps. */
  lemma {:induction false} TouchAllOfNew<P>(t: Table<P>, cfg: Config, p: P, e: Entry, more: seq<Stamp>)
    requires |t.buckets| == HashSize(cfg.listTot) && p !in t.lru
    requires R.Shape(e.ring, t.mask) && t.mask < 256 && R.PowerOfTwo(t.mask + 1)
    ensures TouchAll(Append(t, cfg, p, e), cfg, p, more) == Append(t, cfg, p, e.(ring := PutAll(e.ring, t.mask, more)))
    decreases more
  {
    if more != [] {
      R.PutShape(e.ring, t.mask, more[0]);
      var e' := e.(ring := R.Put(e.ring, t.mask, more[0]));
      MoveLast(t.lru, p);
      assert t.store[p := e][p := e'] == t.store[p := e'];
      assert Touch(Append(t, cfg, p, e), cfg, p, more[0], e.ttl) == Append(t, cfg, p, e');
      TouchAllOfNew(t, cfg, p, e', more[1..]);
    }
  }

  /** The kernel reads back the numbers the command was made from. */
  lemma TokensNumbers(e: UserEntry)
    requires Plausible(e)
    ensures var s, tokens := Sorted(e.stamps), Tokens(e);
            && Number(tokens[0], 255) == Some(e.ttl)
            && (s == [] ==> Number(tokens[1], WORD - 1) == None && Numbers(tokens[2..]) == [])
            && (s != [] ==> Number(tokens[1], WORD - 1) == Some(s[0]) && Numbers(tokens[2..]) == s[1..])
  {
    hide Sorted, Decimal, ParseIPv4, Dotted;
    var s, tokens := Sorted(e.stamps), Tokens(e);
    SortedMembers(e.stamps);
    assert forall i :: 0 <= i < |s| ==> s[i] in s;
    ValueOfDecimal(e.ttl);
    if s != [] {
      ValueOfDecimal(s[0]);
      assert tokens[1] == Decimal(s[0]) && tokens[2..] == Decimals(s[1..]) + [""];
      NumbersOfDecimals(s[1..]);
    } else {
      assert tokens[1] == "" && tokens[2..] == [];
    }
  }

  /** The log after a row: an entry of its sorted stamps when it is writable. */
  function LogWith(log: Log, e: UserEntry): Log
    requires Plausible(e)
  {
    if Writable(e) then Log(log.order + [KeyOf(e)], log.recs[KeyOf(e) := Restored(e)]) else log
  }

  lemma StampsSorted(e: UserEntry)
    requires Plausible(e)
    ensures forall i :: 0 <= i < |Sorted(e.stamps)| ==> Sorted(e.stamps)[i] < WORD
  {
    SortedMembers(e.stamps);
    assert forall i :: 0 <= i < |Sorted(e.stamps)| ==> Sorted(e.stamps)[i] in Sorted(e.stamps);
  }

  /** The kernel entry a writable row becomes. */
  function RestoredEntry(e: UserEntry, memory: seq<Stamp>): Entry
    requires Plausible(e) && e.stamps != [] && 0 < |memory| <= 256 && R.PowerOfTwo(|memory|)
  {
    StampsSorted(e);
    var s: seq<Stamp> := Sorted(e.stamps);
    Entry(KeyOf(e), e.ttl, PutAll(R.Start(memory, s[0]), |memory| - 1, s[1..]))
  }

  lemma RestoredEntrySim(e: UserEntry, memory: seq<Stamp>)
    requires Plausible(e) && e.stamps != [] && 0 < |memory| <= 256 && R.PowerOfTwo(|memory|)
    ensures EntrySim(RestoredEntry(e, memory), Restored(e), |memory| - 1)
    ensures R.Shape(RestoredEntry(e, memory).ring, |memory| - 1)
  {
    StampsSorted(e);
    var s: seq<Stamp> := Sorted(e.stamps);
    FilledRing(memory, s);
    StampsOfStamps(s);
  }

  lemma FilledRing(memory: seq<Stamp>, s: seq<Stamp>)
    requires s != [] && 0 < |memory| <= 256 && R.PowerOfTwo(|memory|)
    ensures R.Shape(R.Start(memory, s[0]), |memory| - 1)
    ensures var r := PutAll(R.Start(memory, s[0]), |memory| - 1, s[1..]);
            R.Holds(r, s, |memory|) && R.Shape(r, |memory| - 1)
  {
    hide *;
    R.StartHolds(memory, s[0]);
    StartShape(memory, s[0]);
    HeadAndTail(s);
    PutAllHolds(R.Start(memory, s[0]), [s[0]], |memory| - 1, s[1..]);
  }

  lemma HeadAndTail<T>(s: seq<T>)
    requires s != []
    ensures [s[0]] + s[1..] == s
  {
  }

  lemma StartShape(memory: seq<Stamp>, x: Stamp)
    requires 0 < |memory| <= 256
    ensures R.Shape(R.Start(memory, x), |memory| - 1)
  {
  }

  /** The command of a row that is not too long is a restore of the row's address. */
  lemma CommandRestores<P>(t: Table<P>, cfg: Config, e: UserEntry, now: Stamp, alloc: Alloc<P>)
    requires Valid(t, cfg) && 0 < cfg.listTot && Plausible(e) && Fits(alloc, t)
    ensures ProcWrite(t, cfg, Command(e), now, alloc)
            == if |Command(e)| > MAX_WRITE then Written(t, Einval, false)
               else Restore(t, cfg, KeyOf(e), Tokens(e), |Command(e)|, alloc)
  {
    CommandTokens(e);
    assert ([e.srcIp] + Tokens(e))[1..] == Tokens(e);
    hide Valid, Restore, Tokens, KeyOf, Plausible;
  }

  /** A restore of an address that is not there, with a ttl, a first stamp and more. */
  lemma RestoreFirst<P>(t: Table<P>, cfg: Config, key: Key, tokens: seq<string>, size: nat, alloc: Alloc<P>,
                        ttl: nat, first: Stamp, more: seq<Stamp>)
    requires Valid(t, cfg) && 0 < cfg.listTot && Fits(alloc, t) && Lookup(t, cfg, key, 0).None? && |tokens| > 1
    requires Number(tokens[0], 255) == Some(ttl) && Number(tokens[1], WORD - 1) == Some(first) && Numbers(tokens[2..]) == more
    ensures alloc.NoMemory? ==> Restore(t, cfg, key, tokens, size, alloc).starved
    ensures alloc.Memory? && t.entries < cfg.listTot ==>
              Restore(t, cfg, key, tokens, size, alloc)
              == Written(TouchAll(Append(t, cfg, alloc.p, NewEntry(key, ttl, alloc.contents, first)), cfg, alloc.p, more), Wrote(size), false)
  {
    hide Lookup, Number, Numbers, TouchAll;
  }

  /** An allocation that fails is reported. */
  lemma WriteStarved<P>(t: Table<P>, cfg: Config, e: UserEntry, now: Stamp)
    requires Valid(t, cfg) && 0 < cfg.listTot && Plausible(e) && Writable(e)
    requires Lookup(t, cfg, KeyOf(e), 0).None?
    ensures ProcWrite(t, cfg, Command(e), now, NoMemory).starved
  {
    CommandRestores(t, cfg, e, now, NoMemory);
    TokensNumbers(e);
    StampsSorted(e);
    hide Valid, Lookup, ProcWrite, Restore, Command;
    var s: seq<Stamp> := Sorted(e.stamps);
    RestoreFirst(t, cfg, KeyOf(e), Tokens(e), |Command(e)|, NoMemory, e.ttl, s[0], s[1..]);
  }

  lemma WriteNew<P>(t: Table<P>, cfg: Config, e: UserEntry, now: Stamp, alloc: Alloc<P>)
    requires Valid(t, cfg) && 0 < cfg.listTot && Plausible(e) && Writable(e) && t.entries < cfg.listTot
    requires Fits(alloc, t) && alloc.Memory? && Lookup(t, cfg, KeyOf(e), 0).None?
    ensures ProcWrite(t, cfg, Command(e), now, alloc)
            == Written(Append(t, cfg, alloc.p, RestoredEntry(e, alloc.contents)), Wrote(|Command(e)|), false)
  {
    CommandRestores(t, cfg, e, now, alloc);
    TokensNumbers(e);
    StampsSorted(e);
    hide Lookup, ProcWrite, Restore, Command, TouchAll, Append, Numbers, Number, Tokens, PutAll, R.Start;
    var s: seq<Stamp> := Sorted(e.stamps);
    RestoreFirst(t, cfg, KeyOf(e), Tokens(e), |Command(e)|, alloc, e.ttl, s[0], s[1..]);
    TouchAllOfNew(t, cfg, alloc.p, NewEntry(KeyOf(e), e.ttl, alloc.contents, s[0]), s[1..]);
  }

  lemma WriteNothing<P>(t: Table<P>, cfg: Config, e: UserEntry, now: Stamp, alloc: Alloc<P>)
    requires Valid(t, cfg) && 0 < cfg.listTot && Plausible(e) && !Writable(e)
    requires Fits(alloc, t) && Lookup(t, cfg, KeyOf(e), 0).None?
    ensures ProcWrite(t, cfg, Command(e), now, alloc)
            == Written(t, if |Command(e)| > MAX_WRITE then Einval else Wrote(|Command(e)|), false)
  {
    CommandRestores(t, cfg, e, now, alloc);
    TokensNumbers(e);
    hide Lookup, ProcWrite, Valid;
  }

  /** Writing one row adds exactly the entry of its sorted stamps when the row is writable, and
      leaves the table alone otherwise. */
  lemma WriteRow<P>(t: Table<P>, log: Log, cfg: Config, e: UserEntry, now: Stamp, alloc: Alloc<P>)
    requires Simulates(t, log, cfg) && Plausible(e) && KeyOf(e) !in log.recs && t.entries < cfg.listTot
    requires Fits(alloc, t) && !ProcWrite(t, cfg, Command(e), now, alloc).starved
    ensures var w := ProcWrite(t, cfg, Command(e), now, alloc);
            && w.reply == (if |Command(e)| > MAX_WRITE then Einval else Wrote(|Command(e)|))
            && Simulates(w.table, LogWith(log, e), cfg) && w.table.mask == t.mask
  {
    LookupIsMap(t, log, cfg, KeyOf(e), 0);
    if Writable(e) {
      WriteStarved(t, cfg, e, now);
      WriteNew(t, cfg, e, now, alloc);
      RestoredEntrySim(e, alloc.contents);
      AppendSimulates(t, log, cfg, alloc.p, RestoredEntry(e, alloc.contents), Restored(e));
    } else {
      WriteNothing(t, cfg, e, now, alloc);
    }
  }

  // ---------------------------------------------------------------------------
  // A whole table

  /** The rows in the order they were written. */
  function RowsAt(entries: map<string, UserEntry>, ips: seq<string>): (rows: seq<UserEntry>)
    requires forall i :: 0 <= i < |ips| ==> ips[i] in entries
    ensures |rows| == |ips| && forall i :: 0 <= i < |ips| ==> rows[i] == entries[ips[i]]
  {
    seq(|ips|, i requires 0 <= i < |ips| => entries[ips[i]])
  }

  /** ok: no write has been refused so far. */
  datatype Progress<P> = Progress(table: Table<P>, ok: bool)

  /** What a series of "*" writes leads to; None when an allocation does not fit or fails. */
  ghost function WriteRows<P>(t: Table<P>, cfg: Config, now: Stamp, rows: seq<UserEntry>, allocs: seq<Alloc<P>>)
    : Option<Progress<P>>
    requires |rows| == |allocs|
    decreases |rows|
  {
    var n := |rows| - 1;
    if rows == [] then Some(Progress(t, true))
    else match WriteRows(t, cfg, now, rows[..n], allocs[..n])
      case None => None
      case Some(u) =>
        if !(Valid(u.table, cfg) && 0 < cfg.listTot && Fits(allocs[n], u.table)) then None
        else
          var w := ProcWrite(u.table, cfg, Command(rows[n]), now, allocs[n]);
          if w.starved then None else Some(Progress(w.table, u.ok && w.reply != Einval))
  }

  /** The log after the rows. */
  function LogOf(rows: seq<UserEntry>): Log
    requires forall i :: 0 <= i < |rows| ==> Plausible(rows[i])
  {
    if rows == [] then EMPTY else LogWith(LogOf(rows[..|rows| - 1]), Last(rows))
  }

  /** Each row brings a key that the rows before it did not have. */
  ghost predicate NewKeys(rows: seq<UserEntry>)
    requires forall i :: 0 <= i < |rows| ==> Plausible(rows[i])
  {
    rows == [] || (NewKeys(rows[..|rows| - 1]) && KeyOf(Last(rows)) !in LogOf(rows[..|rows| - 1]).recs)
  }

  predicate Short(e: UserEntry) {
    |Command(e)| <= MAX_WRITE
  }

  predicate AllShort(rows: seq<UserEntry>) {
    rows == [] || (AllShort(rows[..|rows| - 1]) && Short(Last(rows)))
  }

  lemma {:induction false} LogOfSize(rows: seq<UserEntry>)
    requires forall i :: 0 <= i < |rows| ==> Plausible(rows[i])
    ensures |LogOf(rows).order| <= |rows|
  {
    if rows != [] {
      LogOfSize(rows[..|rows| - 1]);
    }
  }

  lemma WriteRowsLast<P>(t: Table<P>, cfg: Config, now: Stamp, rows: seq<UserEntry>, allocs: seq<Alloc<P>>)
    returns (u: Progress<P>, w: Written<P>)
    requires |rows| == |allocs| && rows != [] && WriteRows(t, cfg, now, rows, allocs).Some?
    ensures var n := |rows| - 1;
            && WriteRows(t, cfg, now, rows[..n], allocs[..n]) == Some(u)
            && Valid(u.table, cfg) && 0 < cfg.listTot && Fits(allocs[n], u.table)
            && w == ProcWrite(u.table, cfg, Command(rows[n]), now, allocs[n]) && !w.starved
            && WriteRows(t, cfg, now, rows, allocs) == Some(Progress(w.table, u.ok && w.reply != Einval))
  {
    var n := |rows| - 1;
    u := WriteRows(t, cfg, now, rows[..n], allocs[..n]).value;
    w := ProcWrite(u.table, cfg, Command(rows[n]), now, allocs[n]);
  }

  ghost predicate AsPlanned<P>(w: Progress<P>, rows: seq<UserEntry>, cfg: Config, mask: nat)
    requires forall i :: 0 <= i < |rows| ==> Plausible(rows[i])
  {
    w.table.mask == mask && Simulates(w.table, LogOf(rows), cfg) && (w.ok <==> AllShort(rows))
  }

  lemma SizeInStep<P>(t: Table<P>, log: Log, cfg: Config)
    requires Simulates(t, log, cfg)
    ensures t.entries == |log.order| && Valid(t, cfg)
  {
  }

  lemma OneMorePlanned<P>(u: Progress<P>, w: Written<P>, rows: seq<UserEntry>, cfg: Config, mask: nat, now: Stamp, alloc: Alloc<P>)
    requires rows != [] && (forall i :: 0 <= i < |rows| ==> Plausible(rows[i])) && NewKeys(rows) && |rows| <= cfg.listTot
    requires AsPlanned(u, rows[..|rows| - 1], cfg, mask) && Fits(alloc, u.table)
    requires w == ProcWrite(u.table, cfg, Command(Last(rows)), now, alloc) && !w.starved
    ensures AsPlanned(Progress(w.table, u.ok && w.reply != Einval), rows, cfg, mask)
  {
    hide Simulates, Valid, ProcWrite, Plausible, KeyOf, LogWith, Command;
    var init := rows[..|rows| - 1];
    LogOfSize(init);
    SizeInStep(u.table, LogOf(init), cfg);
    WriteRow(u.table, LogOf(init), cfg, Last(rows), now, alloc);
  }

  /** Writing rows to a flushed table evicts nothing and leaves exactly the writable rows, each as
      an entry of its sorted stamps; a write is refused exactly when its command is too long. */
  lemma {:induction false} WriteRowsSimulates<P>(cfg: Config, mask: nat, now: Stamp, rows: seq<UserEntry>, allocs: seq<Alloc<P>>)
    requires mask <= 127 && R.PowerOfTwo(mask + 1) && 0 < cfg.listTot
    requires (forall i :: 0 <= i < |rows| ==> Plausible(rows[i])) && NewKeys(rows)
    requires |rows| == |allocs| <= cfg.listTot && WriteRows(Empty(cfg, mask), cfg, now, rows, allocs).Some?
    ensures AsPlanned(WriteRows(Empty(cfg, mask), cfg, now, rows, allocs).value, rows, cfg, mask)
    decreases |rows|
  {
    hide Simulates;
    if rows == [] {
      EmptySimulates<P>(cfg, mask);
    } else {
      var n := |rows| - 1;
      var u, w := WriteRowsLast(Empty(cfg, mask), cfg, now, rows, allocs);
      WriteRowsSimulates(cfg, mask, now, rows[..n], allocs[..n]);
      OneMorePlanned(u, w, rows, cfg, mask, now, allocs[n]);
    }
  }

  lemma WriteRowsMore<P>(t: Table<P>, cfg: Config, now: Stamp, rows: seq<UserEntry>, allocs: seq<Alloc<P>>,
                         u: Progress<P>, e: UserEntry, alloc: Alloc<P>)
    requires |rows| == |allocs| && WriteRows(t, cfg, now, rows, allocs) == Some(u)
    requires Valid(u.table, cfg) && 0 < cfg.listTot && Fits(alloc, u.table)
    requires !ProcWrite(u.table, cfg, Command(e), now, alloc).starved
    ensures var w := ProcWrite(u.table, cfg, Command(e), now, alloc);
            WriteRows(t, cfg, now, rows + [e], allocs + [alloc]) == Some(Progress(w.table, u.ok && w.reply != Einval))
  {
    assert (rows + [e])[..|rows|] == rows && (allocs + [alloc])[..|rows|] == allocs;
  }

  lemma RowsAtMore(entries: map<string, UserEntry>, ips: seq<string>, ip: string)
    requires (forall i :: 0 <= i < |ips| ==> ips[i] in entries) && ip in entries
    ensures RowsAt(entries, ips + [ip]) == RowsAt(entries, ips) + [entries[ip]]
  {
  }

  /** A selection of rows, none of them twice and none still to come. */
  ghost predicate Chosen(ips: seq<string>, entries: map<string, UserEntry>, left: set<string>) {
    && Distinct(ips) && |ips| + |left| == |entries| && left <= entries.Keys
    && forall i :: 0 <= i < |ips| ==> ips[i] in entries && ips[i] !in left
  }

  lemma ChosenMore(ips: seq<string>, entries: map<string, UserEntry>, left: set<string>, ip: string)
    requires Chosen(ips, entries, left) && ip in left
    ensures Chosen(ips + [ip], entries, left - {ip})
  {
  }

  /** One open, write and close; false is a write error. */
  method WriteEntry(kernel: RecentTable, e: UserEntry, now: Stamp, ghost mask: nat, ok: bool,
                    ghost rows: seq<UserEntry>, ghost allocs: seq<Alloc<RecentEntry>>)
    returns (written: bool, ghost alloc: Alloc<RecentEntry>)
    requires kernel.Ok() && |rows| == |allocs|
    requires WriteRows(Empty(kernel.cfg, mask), kernel.cfg, now, rows, allocs) == Some(Progress(kernel.State(), ok))
    modifies kernel, kernel.Repr
    ensures kernel.Ok() && fresh(kernel.Repr - old(kernel.Repr))
    ensures WriteRows(Empty(kernel.cfg, mask), kernel.cfg, now, rows + [e], allocs + [alloc])
            == Some(Progress(kernel.State(), ok && written))
  {
    ghost var u := kernel.State();
    var reply;
    reply, alloc := kernel.ProcWrite(Command(e), now);
    WriteRowsMore(Empty(kernel.cfg, mask), kernel.cfg, now, rows, allocs, Progress(u, ok), e, alloc);
    written := reply != Einval;
  }

  /** The "/" command that starts it. */
  method FlushFirst(kernel: RecentTable, now: Stamp)
    requires kernel.Ok()
    modifies kernel, kernel.Repr
    ensures kernel.Ok() && fresh(kernel.Repr - old(kernel.Repr)) && kernel.State() == Empty(kernel.cfg, old(kernel.mask))
    ensures WriteRows(kernel.State(), kernel.cfg, now, [], []) == Some(Progress(kernel.State(), true))
  {
    var _, _ := kernel.ProcWrite("/", now);
  }

  /** No write before the last was refused. */
  ghost predicate EndsRefused<P>(t: Table<P>, cfg: Config, now: Stamp, entries: map<string, UserEntry>, ips: seq<string>, allocs: seq<Alloc<P>>)
    requires |ips| == |allocs| && forall i :: 0 <= i < |ips| ==> ips[i] in entries
  {
    ips != [] &&
    var before := WriteRows(t, cfg, now, RowsAt(entries, ips[..|ips| - 1]), allocs[..|ips| - 1]);
    before.Some? && before.value.ok
  }

  lemma AllButLast<P>(t: Table<P>, cfg: Config, now: Stamp, entries: map<string, UserEntry>, ips: seq<string>, ip: string,
                      allocs: seq<Alloc<P>>, alloc: Alloc<P>)
    requires |ips| == |allocs| && (forall i :: 0 <= i < |ips| ==> ips[i] in entries) && ip in entries
    ensures var before := WriteRows(t, cfg, now, RowsAt(entries, ips), allocs);
            before.Some? && before.value.ok ==> EndsRefused(t, cfg, now, entries, ips + [ip], allocs + [alloc])
  {
    hide WriteRows;
    assert (ips + [ip])[..|ips|] == ips && (allocs + [alloc])[..|allocs|] == allocs;
  }

  /** The loop over one table, after its flush: write_recent_data goes on after a refused write, while
      write_recent_all stops, and leaves a table that it has no entries for as it is.  What it leaves
      in the kernel is the subject of WriteRowsSimulates. */
  method WriteTable(kernel: RecentTable, entries: map<string, UserEntry>, dumpAll: bool, now: Stamp)
    returns (ok: bool, ghost ips: seq<string>, ghost allocs: seq<Alloc<RecentEntry>>)
    requires kernel.Ok()
    modifies kernel, kernel.Repr
    ensures kernel.Ok() && |ips| == |allocs|
    ensures Distinct(ips) && forall i :: 0 <= i < |ips| ==> ips[i] in entries
    ensures dumpAll && entries == map[] ==> ok && ips == [] && kernel.State() == old(kernel.State())
    ensures !(dumpAll && entries == map[]) ==>
            WriteRows(Empty(kernel.cfg, old(kernel.mask)), kernel.cfg, now, RowsAt(entries, ips), allocs)
            == Some(Progress(kernel.State(), ok))
    ensures ok || !dumpAll ==> |ips| == |entries|
    ensures dumpAll && !ok ==> EndsRefused(Empty(kernel.cfg, old(kernel.mask)), kernel.cfg, now, entries, ips, allocs)
  {
    hide RecentTable.Mirrored, Valid, ProcWrite, WriteRows;
    if dumpAll && entries == map[] {
      return true, [], [];
    }
    FlushFirst(kernel, now);
    ips, allocs, ok := [], [], true;
    assert RowsAt(entries, ips) == [];
    var left := entries.Keys;
    while left != {}
      invariant kernel.Ok() && fresh(kernel.Repr - old(kernel.Repr))
      invariant Chosen(ips, entries, left) && |ips| == |allocs| && (dumpAll ==> ok)
      invariant WriteRows(Empty(kernel.cfg, old(kernel.mask)), kernel.cfg, now, RowsAt(entries, ips), allocs)
                == Some(Progress(kernel.State(), ok))
      decreases |left|
    {
      var ip :| ip in left;
      var written;
      ghost var alloc;
      written, alloc := WriteEntry(kernel, entries[ip], now, old(kernel.mask), ok, RowsAt(entries, ips), allocs);
      RowsAtMore(entries, ips, ip);
      AllButLast(Empty(kernel.cfg, old(kernel.mask)), kernel.cfg, now, entries, ips, ip, allocs, alloc);
      ChosenMore(ips, entries, left, ip);
      ips, allocs, left := ips + [ip], allocs + [alloc], left - {ip};
      ok := ok && written;
      if !written && dumpAll {
        return;
      }
    }
  }

  // ---------------------------------------------------------------------------
  // Which keys, and which verdicts

  lemma SameKeySameRow(a: UserEntry, b: UserEntry)
    requires Plausible(a) && Plausible(b) && KeyOf(a) == KeyOf(b)
    ensures a.srcIp == b.srcIp
  {
  }

  /** The records are exactly those of the writable rows. */
  ghost predicate RecordsOf(recs: map<Key, Rec>, rows: seq<UserEntry>)
    requires forall i :: 0 <= i < |rows| ==> Plausible(rows[i])
  {
    && (forall i :: 0 <= i < |rows| && Writable(rows[i]) ==> KeyOf(rows[i]) in recs && recs[KeyOf(rows[i])] == Restored(rows[i]))
    && forall k | k in recs :: exists i :: 0 <= i < |rows| && Writable(rows[i]) && KeyOf(rows[i]) == k
  }

  /** Rows of distinct addresses have distinct keys, so the restored table holds exactly the
      writable rows. */
  lemma {:induction false} RowsAreRecords(rows: seq<UserEntry>)
    requires forall i :: 0 <= i < |rows| ==> Plausible(rows[i])
    requires forall i, j :: 0 <= i < j < |rows| ==> rows[i].srcIp != rows[j].srcIp
    ensures NewKeys(rows) && RecordsOf(LogOf(rows).recs, rows)
  {
    hide Writable, Plausible, KeyOf, Restored;
    if rows != [] {
      var init, e := rows[..|rows| - 1], Last(rows);
      RowsAreRecords(init);
      var recs := LogOf(init).recs;
      if KeyOf(e) in recs {
        var i :| 0 <= i < |init| && Writable(init[i]) && KeyOf(init[i]) == KeyOf(e);
        SameKeySameRow(init[i], e);
        assert false;
      }
      LastRecord(rows);
      assert rows == init + [e];
      OneMoreRecord(rows, init, e, recs);
    }
  }

  /** The last of the rows adds its own record and no other. */
  lemma LastRecord(rows: seq<UserEntry>)
    requires rows != [] && forall i :: 0 <= i < |rows| ==> Plausible(rows[i])
    ensures var (recs, recs', e) := (LogOf(rows[..|rows| - 1]).recs, LogOf(rows).recs, Last(rows));
            && (Writable(e) ==> recs' == recs[KeyOf(e) := Restored(e)])
            && (!Writable(e) ==> recs' == recs)
  {
    hide Writable, Plausible, KeyOf, Restored;
  }

  lemma OneMoreRecord(rows: seq<UserEntry>, init: seq<UserEntry>, e: UserEntry, recs: map<Key, Rec>)
    requires rows == init + [e] && (forall i :: 0 <= i < |init| ==> Plausible(init[i])) && Plausible(e)
    requires forall i :: 0 <= i < |init| ==> init[i].srcIp != e.srcIp
    requires RecordsOf(recs, init)
    ensures (forall i :: 0 <= i < |rows| ==> Plausible(rows[i])) && RecordsOf(if Writable(e) then recs[KeyOf(e) := Restored(e)] else recs, rows)
  {
    hide Writable, Plausible, KeyOf, Restored;
    assert rows[|init|] == e && forall i :: 0 <= i < |init| ==> rows[i] == init[i];
    var recs' := if Writable(e) then recs[KeyOf(e) := Restored(e)] else recs;
    forall k | k in recs' ensures exists i :: 0 <= i < |rows| && Writable(rows[i]) && KeyOf(rows[i]) == k {
      if k in recs {
        var i :| 0 <= i < |init| && Writable(init[i]) && KeyOf(init[i]) == k;
        assert rows[i] == init[i];
      } else {
        assert Writable(rows[|init|]) && KeyOf(rows[|init|]) == k;
      }
    }
    forall i | 0 <= i < |init| && Writable(e) ensures KeyOf(rows[i]) != KeyOf(e) {
      if KeyOf(rows[i]) == KeyOf(e) {
        SameKeySameRow(rows[i], e);
      }
    }
  }

  lemma {:induction false} HitsInsert(x: nat, s: seq<nat>, cutoff: Stamp, seconds: nat)
    requires x < WORD && forall i :: 0 <= i < |s| ==> s[i] < WORD
    ensures forall i :: 0 <= i < |InsertSorted(x, s)| ==> InsertSorted(x, s)[i] < WORD
    ensures R.Hits(InsertSorted(x, s), cutoff, seconds)
            == R.Hits(s, cutoff, seconds) + if InWindow(cutoff, seconds, x) then 1 else 0
  {
    var r := InsertSorted(x, s);
    forall i | 0 <= i < |r| ensures r[i] < WORD {
      assert r[i] in r;
    }
    if s == [] {
      assert [x][1..] == [];
    } else if x <= s[0] {
      assert ([x] + s)[1..] == s;
    } else {
      HitsInsert(x, s[1..], cutoff, seconds);
      assert r[1..] == InsertSorted(x, s[1..]);
    }
  }

  /** Sorting does not change how many stamps are in the window. */
  lemma {:induction false} HitsSorted(s: seq<nat>, cutoff: Stamp, seconds: nat)
    requires forall i :: 0 <= i < |s| ==> s[i] < WORD
    ensures forall i :: 0 <= i < |Sorted(s)| ==> Sorted(s)[i] < WORD
    ensures R.Hits(Sorted(s), cutoff, seconds) == R.Hits(s, cutoff, seconds)
  {
    if s != [] {
      HitsSorted(s[1..], cutoff, seconds);
      HitsInsert(s[0], Sorted(s[1..]), cutoff, seconds);
    }
  }

  lemma RestoredHolds(b: Entry, u: UserEntry, mask: nat)
    requires Plausible(u) && EntrySim(b, Restored(u), mask)
    ensures forall i :: 0 <= i < |Sorted(u.stamps)| ==> Sorted(u.stamps)[i] < WORD
    ensures R.Holds(b.ring, Sorted(u.stamps), mask + 1)
  {
    StampsSorted(u);
    StampsOfStamps(Sorted(u.stamps));
    hide Plausible, Sorted, R.Holds;
  }

  /** A restored entry shows its newest stamps; the largest one is its last_seen. */
  lemma RestoredShows(b: Entry, u: UserEntry, mask: nat)
    requires Plausible(u) && u.stamps != [] && EntrySim(b, Restored(u), mask)
    requires mask <= 127 && R.PowerOfTwo(mask + 1) && R.Shape(b.ring, mask)
    ensures R.Unrolled(b.ring) == Seqs.Newest(Sorted(u.stamps), mask + 1)
    ensures LastSeen(b.ring, mask) == Last(Sorted(u.stamps))
    ensures forall i :: 0 <= i < |u.stamps| ==> u.stamps[i] <= LastSeen(b.ring, mask)
  {
    hide R.Unrolled, R.Holds, R.Shape, R.PowerOfTwo, Plausible, Restored, EntrySim, Sorted, LastSeen;
    RestoredHolds(b, u, mask);
    R.ContentsAreNewest(b.ring, Sorted(u.stamps), mask + 1);
    LastSeenSlot(b.ring, mask);
    NoneAbove(u.stamps);
  }

  /** The last of the sorted stamps is the largest. */
  lemma NoneAbove(s: seq<nat>)
    requires s != []
    ensures forall i :: 0 <= i < |s| ==> s[i] <= Last(Sorted(s))
  {
    var t := Sorted(s);
    hide Sorted;
    forall i | 0 <= i < |s| ensures s[i] <= Last(t) {
      assert s[i] in multiset(s);
      assert s[i] in t;
    }
  }

  /** When its ring has room for all stamps, a restored entry gives every rule the verdict that the
      stamps gave. */
  lemma RestoredVerdict(b: Entry, u: UserEntry, mask: nat, cutoff: Stamp, seconds: nat)
    requires Plausible(u) && u.stamps != [] && EntrySim(b, Restored(u), mask)
    requires mask <= 127 && |u.stamps| <= mask + 1
    ensures b.ring.nstamps <= |b.ring.slots|
    ensures R.Hits(R.Visible(b.ring), cutoff, seconds) == R.Hits(u.stamps, cutoff, seconds)
  {
    StampsSorted(u);
    StampsOfStamps(Sorted(u.stamps));
    R.HitsOfNewest(b.ring, Sorted(u.stamps), mask + 1, cutoff, seconds);
    HitsSorted(u.stamps, cutoff, seconds);
  }
}
