// The ring of time stamps inside one recent_entry: stamps[], nstamps (u16) and index (u8).
module Ring {
  import Division
  import opened Jiffies
  import opened Seqs

  datatype Ring = Ring(slots: seq<Stamp>, nstamps: nat, index: nat)

  predicate PowerOfTwo(n: nat) {
    n in {1, 2, 4, 8, 16, 32, 64, 128, 256}
  }

  /** Bitwise conjunction, as in e->index &= nstamps_max_mask (kernel 4.9). */
  function And(a: nat, b: nat): nat {
    if a == 0 || b == 0 then 0 else (a % 2) * (b % 2) + 2 * And(a / 2, b / 2)
  }

  /** recent_entry_init: the first stamp goes to slot 0 of freshly allocated memory. */
  function Start(memory: seq<Stamp>, s: Stamp): Ring
    requires memory != []
  {
    Ring(memory[0 := s], 1, 1)
  }

  /** The tail of recent_entry_update once index has been reduced to a slot number i;
      index++ wraps as a u8. */
  function Store(r: Ring, i: nat, s: Stamp): Ring
    requires i < |r.slots|
  {
    var next := (i + 1) % 256;
    Ring(r.slots[i := s], if next > r.nstamps then next else r.nstamps, next)
  }

  /** recent_entry_update of kernel 4.9: index &= mask. */
  function Put(r: Ring, mask: nat, s: Stamp): (q: Ring)
    requires mask < 256 && |r.slots| == mask + 1 && PowerOfTwo(mask + 1)
    ensures |q.slots| == |r.slots|
  {
    AndIsModulo(r.index, mask);
    Store(r, And(r.index, mask), s)
  }

  /** recent_entry_update of kernel 3.16: index %= ip_pkt_list_tot. */
  function PutModulo(r: Ring, s: Stamp): Ring
    requires r.slots != []
  {
    Store(r, r.index % |r.slots|, s)
  }

  /** What recent_mt and recent_seq_show look at: stamps[0 .. nstamps). */
  function Visible(r: Ring): seq<Stamp>
    requires r.nstamps <= |r.slots|
  {
    r.slots[..r.nstamps]
  }

  /** Every slot number the kernel computes is inside the array; index is 0 only after a
      256-slot ring has wrapped. */
  predicate Shape(r: Ring, mask: nat) {
    && |r.slots| == mask + 1
    && 1 <= r.nstamps <= |r.slots|
    && r.index <= |r.slots| && r.index < 256
    && (mask < 255 ==> 1 <= r.index)
  }

  lemma PutShape(r: Ring, mask: nat, s: Stamp)
    requires Shape(r, mask) && mask < 256 && PowerOfTwo(mask + 1)
    ensures Shape(Put(r, mask, s), mask)
  {
    AndIsModulo(r.index, mask);
  }

  lemma {:induction false} AndIsModulo(index: nat, mask: nat)
    requires mask < 256 && PowerOfTwo(mask + 1)
    ensures And(index, mask) == index % (mask + 1)
  {
    if index != 0 && mask != 0 {
      assert PowerOfTwo(mask / 2 + 1);
      assert mask % 2 == 1 && 2 * (mask / 2 + 1) == mask + 1;
      AndIsModulo(index / 2, mask / 2);
      Division.HalveModulo(index, mask / 2 + 1);
    }
  }

  // ---------------------------------------------------------------------------
  // Contents: which part of the stamp history a ring holds

  function Min(a: nat, b: nat): nat {
    if a < b then a else b
  }

  /** r is the ring of n slots after the stamps h, oldest first.  The u8 index hides slot 255
      of a 256-slot ring from nstamps. */
  ghost predicate Holds(r: Ring, h: seq<Stamp>, n: nat) {
    && 0 < n <= 256 && |r.slots| == n && h != []
    && r.nstamps == Min(|h|, Min(n, 255))
    && r.index == ((|h| - 1) % n + 1) % 256
    && forall j :: 0 <= j < |h| && |h| - n <= j ==> r.slots[j % n] == h[j]
  }

  lemma StartHolds(memory: seq<Stamp>, s: Stamp)
    requires 0 < |memory| <= 256
    ensures Holds(Start(memory, s), [s], |memory|)
  {
  }

  lemma NextSlot(k: nat, n: nat)
    requires k > 0 && 0 < n <= 256
    ensures ((k - 1) % n + 1) % 256 % n == k % n
    ensures n <= 255 ==> ((k - 1) % n + 1) % 256 == (k - 1) % n + 1
  {
    Division.Successor(k - 1, n);
  }

  /** Both kernels' updates append to the history. */
  lemma StoreHolds(r: Ring, h: seq<Stamp>, n: nat, s: Stamp)
    requires Holds(r, h, n)
    ensures r.index % n == |h| % n
    ensures Holds(Store(r, r.index % n, s), h + [s], n)
  {
    var k := |h|;
    NextSlot(k, n);
    CountAfter(k, n);
    StoredSlots(r.slots, h, n, s);
  }

  lemma StoredSlots(slots: seq<Stamp>, h: seq<Stamp>, n: nat, s: Stamp)
    requires |slots| == n > 0 && forall j :: 0 <= j < |h| && |h| - n <= j ==> slots[j % n] == h[j]
    ensures forall j :: 0 <= j < |h| + 1 && |h| + 1 - n <= j ==> slots[|h| % n := s][j % n] == (h + [s])[j]
  {
    var k := |h|;
    forall j | 0 <= j < k + 1 && k + 1 - n <= j ensures slots[k % n := s][j % n] == (h + [s])[j] {
      if j < k {
        Division.NearbyDiffer(j, k, n);
      }
    }
  }

  /** nstamps and index once one more stamp has gone to slot k % n. */
  lemma CountAfter(k: nat, n: nat)
    requires k > 0 && 0 < n <= 256
    ensures var next := (k % n + 1) % 256;
            (if next > Min(k, Min(n, 255)) then next else Min(k, Min(n, 255))) == Min(k + 1, Min(n, 255))
  {
    if k < n {
      Division.Unique(k, n, 0, k);
    }
  }

  lemma PutHolds(r: Ring, h: seq<Stamp>, mask: nat, s: Stamp)
    requires mask < 256 && PowerOfTwo(mask + 1) && Holds(r, h, mask + 1)
    ensures Holds(Put(r, mask, s), h + [s], mask + 1)
  {
    AndIsModulo(r.index, mask);
    StoreHolds(r, h, mask + 1, s);
  }

  lemma PutModuloHolds(r: Ring, h: seq<Stamp>, s: Stamp)
    requires Holds(r, h, |r.slots|)
    ensures Holds(PutModulo(r, s), h + [s], |r.slots|)
  {
    StoreHolds(r, h, |r.slots|, s);
  }

  lemma HoldsShape(r: Ring, h: seq<Stamp>, n: nat)
    requires Holds(r, h, n)
    ensures Shape(r, n - 1)
  {
    NextSlot(|h|, n);
  }

  lemma HoldsCount(r: Ring, h: seq<Stamp>, n: nat)
    requires Holds(r, h, n)
    ensures r.nstamps <= |r.slots| == n
  {
  }

  /** index is 0 exactly after a positive multiple of 256 stamps in a 256-slot ring. */
  lemma IndexZero(r: Ring, h: seq<Stamp>, n: nat)
    requires Holds(r, h, n)
    ensures r.index == 0 <==> n == 256 && |h| % 256 == 0
  {
    NextSlot(|h|, n);
  }

  /** What shows is determined by the history. */
  lemma SameHistorySameVisible(r: Ring, s: Ring, h: seq<Stamp>, n: nat)
    requires Holds(r, h, n) && Holds(s, h, n)
    ensures Visible(r) == Visible(s)
  {
    forall i | 0 <= i < r.nstamps ensures r.slots[i] == s.slots[i] {
      var j := SlotHistory(|h|, n, i);
      assert r.slots[j % n] == h[j] && s.slots[j % n] == h[j];
    }
  }

  /** The latest position of the history that was stored in slot i. */
  lemma SlotHistory(k: nat, n: nat, i: nat) returns (j: nat)
    requires 0 < n && i < n && i < k
    ensures j < k && k - n <= j && j % n == i
  {
    var q := (k - 1 - i) / n;
    j := q * n + i;
    Division.Unique(j, n, q, i);
    assert k - 1 - i == q * n + (k - 1 - i) % n;
  }

  /** A ring of at most 255 slots read from its oldest stamp to its newest. */
  function Unrolled(r: Ring): seq<Stamp>
    requires r.nstamps <= |r.slots| && r.slots != []
  {
    if r.nstamps < |r.slots| then Visible(r)
    else var i := r.index % |r.slots|; r.slots[i..] + r.slots[..i]
  }

  lemma SlotOfAge(r: Ring, h: seq<Stamp>, n: nat, t: nat)
    requires Holds(r, h, n) && n <= |h| && t < n
    ensures var p := |h| % n + t; r.slots[if p < n then p else p - n] == h[|h| - n + t]
  {
    var k, i := |h|, |h| % n;
    var wrap := if i + t < n then 0 else 1;
    var p := if i + t < n then i + t else i + t - n;
    assert k == (k / n) * n + i;
    assert k - n + t == (k / n - 1 + wrap) * n + p by {
      assert (k / n - 1 + wrap) * n == (k / n) * n - n + wrap * n;
    }
    Division.Unique(k - n + t, n, k / n - 1 + wrap, p);
  }

  lemma Rotation(r: Ring, h: seq<Stamp>, n: nat)
    requires Holds(r, h, n) && n <= |h|
    ensures var i := |h| % n; r.slots[i..] + r.slots[..i] == h[|h| - n..]
  {
    var i := |h| % n;
    forall t | 0 <= t < n ensures (r.slots[i..] + r.slots[..i])[t] == h[|h| - n..][t] {
      SlotOfAge(r, h, n, t);
    }
  }

  lemma PartlyFilled(r: Ring, h: seq<Stamp>, n: nat)
    requires Holds(r, h, n) && |h| < n
    ensures r.nstamps == |h| && Visible(r) == h
  {
    forall j | 0 <= j < |h| ensures r.slots[j] == h[j] {
      Division.Unique(j, n, 0, j);
    }
  }

  lemma NewestSlot(r: Ring, h: seq<Stamp>, n: nat)
    requires Holds(r, h, n) && n <= 255
    ensures 1 <= r.index <= n && r.slots[r.index - 1] == Last(h) && r.index % n == |h| % n
    ensures |r.slots| == n && r.nstamps == Min(|h|, n)
  {
    NextSlot(|h|, n);
    assert r.slots[(|h| - 1) % n] == h[|h| - 1];
  }

  /** A ring of at most 255 slots shows exactly the newest n stamps, and index - 1 is the slot
      of the newest one. */
  lemma ContentsAreNewest(r: Ring, h: seq<Stamp>, n: nat)
    requires Holds(r, h, n) && n <= 255
    ensures 1 <= r.index <= n && r.slots[r.index - 1] == Last(h)
    ensures Unrolled(r) == Newest(h, n)
  {
    NewestSlot(r, h, n);
    if |h| < n {
      PartlyFilled(r, h, n);
    } else {
      Rotation(r, h, n);
    }
    hide Holds;
  }

  /** The ring of kernel 4.9 after the stamps h, in memory that held anything. */
  function Filled(memory: seq<Stamp>, h: seq<Stamp>): (r: Ring)
    requires h != [] && 0 < |memory| <= 256 && PowerOfTwo(|memory|)
    ensures |r.slots| == |memory|
    decreases |h|
  {
    if |h| == 1 then Start(memory, h[0]) else Put(Filled(memory, h[..|h| - 1]), |memory| - 1, Last(h))
  }

  /** The ring of kernel 3.16, whose size is any module parameter. */
  function FilledModulo(memory: seq<Stamp>, h: seq<Stamp>): (r: Ring)
    requires h != [] && memory != []
    ensures |r.slots| == |memory|
    decreases |h|
  {
    if |h| == 1 then Start(memory, h[0]) else PutModulo(FilledModulo(memory, h[..|h| - 1]), Last(h))
  }

  lemma {:induction false} FilledHolds(memory: seq<Stamp>, h: seq<Stamp>)
    requires h != [] && 0 < |memory| <= 256 && PowerOfTwo(|memory|)
    ensures Holds(Filled(memory, h), h, |memory|)
    decreases |h|
  {
    if |h| == 1 {
      StartHolds(memory, h[0]);
      assert h == [h[0]];
    } else {
      FilledHolds(memory, h[..|h| - 1]);
      PutHolds(Filled(memory, h[..|h| - 1]), h[..|h| - 1], |memory| - 1, Last(h));
      assert h == h[..|h| - 1] + [Last(h)];
    }
  }

  lemma {:induction false} FilledModuloHolds(memory: seq<Stamp>, h: seq<Stamp>)
    requires h != [] && 0 < |memory| <= 256
    ensures Holds(FilledModulo(memory, h), h, |memory|)
    decreases |h|
  {
    if |h| == 1 {
      StartHolds(memory, h[0]);
      assert h == [h[0]];
    } else {
      FilledModuloHolds(memory, h[..|h| - 1]);
      PutModuloHolds(FilledModulo(memory, h[..|h| - 1]), h[..|h| - 1], Last(h));
      assert h == h[..|h| - 1] + [Last(h)];
    }
  }

  /** r shows exactly the last of the stamps h, as many as it has slots for, and the newest lies at index - 1. */
  ghost predicate ShowsLast(r: Ring, h: seq<Stamp>, n: nat)
    requires h != []
  {
    && r.nstamps == Min(|h|, n) && |r.slots| == n > 0 && Unrolled(r) == Newest(h, n)
    && 1 <= r.index <= n && r.slots[r.index - 1] == Last(h)
  }

  lemma HoldsShowsLast(r: Ring, h: seq<Stamp>, n: nat)
    requires Holds(r, h, n) && n <= 255
    ensures ShowsLast(r, h, n)
  {
    ContentsAreNewest(r, h, n);
    hide Unrolled, Newest;
  }

  /** Ring contents after any number of stamps: rings of at most 128 slots in kernel 4.9. */
  lemma AfterStamps(memory: seq<Stamp>, h: seq<Stamp>)
    requires h != [] && 0 < |memory| <= 128 && PowerOfTwo(|memory|)
    ensures ShowsLast(Filled(memory, h), h, |memory|)
  {
    FilledHolds(memory, h);
    hide Filled, ShowsLast, Holds;
    HoldsShowsLast(Filled(memory, h), h, |memory|);
  }

  /** The same for every ring of at most 255 slots in kernel 3.16. */
  lemma AfterStampsModulo(memory: seq<Stamp>, h: seq<Stamp>)
    requires h != [] && 0 < |memory| <= 255
    ensures ShowsLast(FilledModulo(memory, h), h, |memory|)
  {
    FilledModuloHolds(memory, h);
    hide FilledModulo, ShowsLast, Holds;
    HoldsShowsLast(FilledModulo(memory, h), h, |memory|);
  }

  // ---------------------------------------------------------------------------
  // Verdicts: counting the stamps inside a rule's window

  function Hits(s: seq<Stamp>, cutoff: Stamp, seconds: nat): (n: nat)
    ensures n <= |s|
  {
    if s == [] then 0
    else (if InWindow(cutoff, seconds, s[0]) then 1 else 0) + Hits(s[1..], cutoff, seconds)
  }

  /** The number of hits a rule asks for. */
  function Need(hitCount: nat): nat {
    if hitCount == 0 then 1 else hitCount
  }

  lemma {:induction false} HitsConcat(a: seq<Stamp>, b: seq<Stamp>, cutoff: Stamp, seconds: nat)
    ensures Hits(a + b, cutoff, seconds) == Hits(a, cutoff, seconds) + Hits(b, cutoff, seconds)
  {
    if a == [] {
      assert a + b == b;
    } else {
      assert (a + b)[1..] == a[1..] + b;
      HitsConcat(a[1..], b, cutoff, seconds);
    }
  }

  lemma HitsPrefix(s: seq<Stamp>, i: nat, cutoff: Stamp, seconds: nat)
    requires i < |s|
    ensures Hits(s[..i + 1], cutoff, seconds)
            == Hits(s[..i], cutoff, seconds) + if InWindow(cutoff, seconds, s[i]) then 1 else 0
    ensures Hits(s, cutoff, seconds) >= Hits(s[..i + 1], cutoff, seconds)
  {
    assert s[..i + 1] == s[..i] + [s[i]];
    HitsConcat(s[..i], [s[i]], cutoff, seconds);
    assert s == s[..i + 1] + s[i + 1..];
    HitsConcat(s[..i + 1], s[i + 1..], cutoff, seconds);
  }

  /** The stamps counted by the match loop are those of the newest part of the history. */
  lemma HitsOfNewest(r: Ring, h: seq<Stamp>, n: nat, cutoff: Stamp, seconds: nat)
    requires Holds(r, h, n) && n <= 255
    ensures Hits(Visible(r), cutoff, seconds) == Hits(Newest(h, n), cutoff, seconds)
  {
    ContentsAreNewest(r, h, n);
    if r.nstamps == n {
      var i := r.index % n;
      assert Visible(r) == r.slots[..i] + r.slots[i..];
      HitsConcat(r.slots[..i], r.slots[i..], cutoff, seconds);
      HitsConcat(r.slots[i..], r.slots[..i], cutoff, seconds);
    }
  }

  /** The stamps left in the counter at the given ticks. */
  function Stamps(ticks: seq<nat>): (s: seq<Stamp>)
    ensures |s| == |ticks|
    ensures forall i :: 0 <= i < |s| ==> s[i] == At(ticks[i])
  {
    seq(|ticks|, i requires 0 <= i < |ticks| => At(ticks[i]))
  }

  /** How many ticks lie within span of now: the meaning of a rule, in real time. */
  function RecentTicks(ticks: seq<nat>, now: nat, span: nat, seconds: nat): (n: nat)
    ensures n <= |ticks|
  {
    if ticks == [] then 0
    else (if seconds == 0 || ticks[0] + span >= now then 1 else 0)
         + RecentTicks(ticks[1..], now, span, seconds)
  }

  /** Ticks in order, none older than half the counter's range or about as far in the future. */
  ghost predicate Timeline(ticks: seq<nat>, now: nat) {
    && (forall i, j :: 0 <= i <= j < |ticks| ==> ticks[i] <= ticks[j])
    && forall i :: 0 <= i < |ticks| ==> ticks[i] + UINT <= now + HALF && now <= ticks[i] + HALF
  }

  lemma {:induction false} HitsAreRecent(ticks: seq<nat>, now: nat, span: nat, seconds: nat)
    requires Timeline(ticks, now) && span < UINT
    ensures Hits(Stamps(ticks), Cutoff(At(now), span), seconds)
            == RecentTicks(ticks, now, span, seconds)
  {
    if ticks != [] {
      WindowNearby(ticks[0], now, span);
      assert Stamps(ticks)[1..] == Stamps(ticks[1..]);
      HitsAreRecent(ticks[1..], now, span, seconds);
    }
  }

  lemma {:induction false} AllRecent(ticks: seq<nat>, now: nat, span: nat, seconds: nat)
    requires forall i :: 0 <= i < |ticks| ==> seconds == 0 || ticks[i] + span >= now
    ensures RecentTicks(ticks, now, span, seconds) == |ticks|
  {
    if ticks != [] {
      AllRecent(ticks[1..], now, span, seconds);
    }
  }

  /** In an ordered history the recent ticks are the newest ones. */
  lemma {:induction false} RecentOfNewest(ticks: seq<nat>, n: nat, now: nat, span: nat, seconds: nat)
    requires Timeline(ticks, now)
    ensures RecentTicks(Newest(ticks, n), now, span, seconds)
            == Min(n, RecentTicks(ticks, now, span, seconds))
  {
    if |ticks| > n {
      assert Newest(ticks, n) == Newest(ticks[1..], n);
      RecentOfNewest(ticks[1..], n, now, span, seconds);
      if seconds == 0 || ticks[0] + span >= now {
        AllRecent(ticks, now, span, seconds);
        AllRecent(ticks[1..], now, span, seconds);
      }
    }
  }

  lemma NewestTimeline(ticks: seq<nat>, n: nat, now: nat)
    requires Timeline(ticks, now)
    ensures Timeline(Newest(ticks, n), now) && Newest(Stamps(ticks), n) == Stamps(Newest(ticks, n))
  {
  }

  /** A ring of at most 255 slots gives the verdict of the whole history to every rule that
      asks for no more hits than the ring has slots. */
  lemma VerdictIsHistory(r: Ring, ticks: seq<nat>, n: nat, now: nat, span: nat, seconds: nat, hitCount: nat)
    requires Holds(r, Stamps(ticks), n) && n <= 255 && Need(hitCount) <= n
    requires Timeline(ticks, now) && span < UINT
    ensures Hits(Visible(r), Cutoff(At(now), span), seconds) >= Need(hitCount)
            <==> RecentTicks(ticks, now, span, seconds) >= Need(hitCount)
  {
    hide Holds, Hits, Timeline, RecentTicks, Visible, Newest, Stamps, Cutoff;
    assert r.nstamps <= |r.slots| by { HoldsShape(r, Stamps(ticks), n); }
    HitsOfNewest(r, Stamps(ticks), n, Cutoff(At(now), span), seconds);
    NewestTimeline(ticks, n, now);
    HitsAreRecent(Newest(ticks, n), now, span, seconds);
    RecentOfNewest(ticks, n, now, span, seconds);
  }

  /** A rule is hit exactly if the tick as many places from the end as it asks for is in the window. */
  lemma {:induction false} HitByAge(ticks: seq<nat>, now: nat, span: nat, seconds: nat, need: nat)
    requires seconds != 0 && need > 0 && forall i, j :: 0 <= i <= j < |ticks| ==> ticks[i] <= ticks[j]
    ensures RecentTicks(ticks, now, span, seconds) >= need <==> |ticks| >= need && ticks[|ticks| - need] + span >= now
  {
    if ticks != [] {
      if ticks[0] + span >= now {
        AllRecent(ticks, now, span, seconds);
      } else {
        HitByAge(ticks[1..], now, span, seconds, need);
      }
    }
  }

  predicate Between(x: nat, a: nat, b: nat) {
    a <= x < b || b <= x < a
  }

  /** The tick that decides a rule leaves the window between the two times. */
  predicate Leaves(ticks: seq<nat>, a: nat, b: nat, span: nat, seconds: nat, hitCount: nat) {
    seconds != 0 && |ticks| >= Need(hitCount) && Between(ticks[|ticks| - Need(hitCount)] + span, a, b)
  }

  /** Asked at two times, a rule is answered alike exactly if the tick that decides it does not leave the window
      between them. */
  lemma TwoTimes(ticks: seq<nat>, a: nat, b: nat, span: nat, seconds: nat, hitCount: nat)
    requires forall i, j :: 0 <= i <= j < |ticks| ==> ticks[i] <= ticks[j]
    ensures (RecentTicks(ticks, a, span, seconds) >= Need(hitCount) <==> RecentTicks(ticks, b, span, seconds) >= Need(hitCount))
            <==> !Leaves(ticks, a, b, span, seconds, hitCount)
  {
    if seconds == 0 {
      AllRecent(ticks, a, span, seconds);
      AllRecent(ticks, b, span, seconds);
    } else {
      HitByAge(ticks, a, span, seconds, Need(hitCount));
      HitByAge(ticks, b, span, seconds, Need(hitCount));
    }
  }

  /** The position in the history of the stamp in slot 255 of a full 256-slot ring. */
  function HiddenAt(k: nat): (j: nat)
    requires k >= 256
    ensures k - 256 <= j < k
  {
    k - 1 - k % 256
  }

  function HiddenTick(ticks: seq<nat>): nat
    requires |ticks| >= 256
  {
    ticks[HiddenAt(|ticks|)]
  }

  /** Before a 256-slot ring is full, everything is counted. */
  lemma HitsBefore256(r: Ring, ticks: seq<nat>, now: nat, span: nat, seconds: nat)
    requires Holds(r, Stamps(ticks), 256) && |ticks| < 256 && Timeline(ticks, now) && span < UINT
    ensures r.nstamps <= |r.slots|
    ensures Hits(Visible(r), Cutoff(At(now), span), seconds) == RecentTicks(ticks, now, span, seconds)
  {
    PartlyFilled(r, Stamps(ticks), 256);
    hide *;
    HitsAreRecent(ticks, now, span, seconds);
  }

  lemma HiddenStamp(ticks: seq<nat>, now: nat, span: nat, seconds: nat)
    requires |ticks| >= 256 && Timeline(ticks, now) && span < UINT
    ensures Stamps(ticks)[|ticks| - 256..] == Stamps(Newest(ticks, 256))
    ensures InWindow(Cutoff(At(now), span), seconds, Stamps(ticks)[HiddenAt(|ticks|)])
            <==> seconds == 0 || HiddenTick(ticks) + span >= now
  {
    hide Cutoff, At;
    WindowNearby(HiddenTick(ticks), now, span);
  }

  /** In a full one, the newest 256 but for the hidden one. */
  lemma HitsBeyond256(r: Ring, ticks: seq<nat>, now: nat, span: nat, seconds: nat)
    requires Holds(r, Stamps(ticks), 256) && |ticks| >= 256 && Timeline(ticks, now) && span < UINT
    ensures r.nstamps <= |r.slots|
    ensures Hits(Visible(r), Cutoff(At(now), span), seconds)
            == Min(256, RecentTicks(ticks, now, span, seconds)) - if seconds == 0 || HiddenTick(ticks) + span >= now then 1 else 0
  {
    hide *;
    HoldsCount(r, Stamps(ticks), 256);
    HitsAround256(r, Stamps(ticks), Cutoff(At(now), span), seconds);
    HiddenStamp(ticks, now, span, seconds);
    NewestTimeline(ticks, 256, now);
    HitsAreRecent(Newest(ticks, 256), now, span, seconds);
    RecentOfNewest(ticks, 256, now, span, seconds);
  }

  /** With 256 slots the verdict is wrong exactly when the stamp in the never-counted slot 255
      is inside the window and was needed to reach the hit count. */
  lemma VerdictOf256(r: Ring, ticks: seq<nat>, now: nat, span: nat, seconds: nat, hitCount: nat)
    requires Holds(r, Stamps(ticks), 256) && hitCount < 256
    requires Timeline(ticks, now) && span < UINT
    ensures (Hits(Visible(r), Cutoff(At(now), span), seconds) >= Need(hitCount)
             <==> RecentTicks(ticks, now, span, seconds) >= Need(hitCount))
            <==> !(&& |ticks| >= 256
                   && RecentTicks(ticks, now, span, seconds) == Need(hitCount)
                   && (seconds == 0 || HiddenTick(ticks) + span >= now))
  {
    hide Holds, Hits, RecentTicks, Timeline, Stamps, Visible, Cutoff, At, HiddenTick;
    if |ticks| < 256 {
      HitsBefore256(r, ticks, now, span, seconds);
    } else {
      HitsBeyond256(r, ticks, now, span, seconds);
    }
  }

  lemma HitsOfOne(x: Stamp, c: Stamp, seconds: nat)
    ensures Hits([x], c, seconds) == if InWindow(c, seconds, x) then 1 else 0
  {
    assert [x][1..] == [];
  }

  lemma Around256(r: Ring, h: seq<Stamp>)
    requires Holds(r, h, 256) && |h| >= 256
    ensures var i := |h| % 256;
            && |r.slots| == 256 && r.nstamps == 255 && r.slots[255] == h[HiddenAt(|h|)]
            && r.slots[i..] + r.slots[..i] == h[|h| - 256..] && r.slots == r.slots[..i] + r.slots[i..]
            && r.slots == Visible(r) + [r.slots[255]]
  {
    Rotation(r, h, 256);
    SlotOfAge(r, h, 256, 255 - |h| % 256);
  }

  lemma HitsAround256(r: Ring, h: seq<Stamp>, c: Stamp, seconds: nat)
    requires Holds(r, h, 256) && |h| >= 256
    ensures Hits(h[|h| - 256..], c, seconds)
            == Hits(Visible(r), c, seconds)
               + if InWindow(c, seconds, h[HiddenAt(|h|)]) then 1 else 0
  {
    var i := |h| % 256;
    Around256(r, h);
    hide Holds, Hits, InWindow;
    HitsOfOne(r.slots[255], c, seconds);
    HitsConcat(r.slots[i..], r.slots[..i], c, seconds);
    HitsConcat(r.slots[..i], r.slots[i..], c, seconds);
    HitsConcat(Visible(r), [r.slots[255]], c, seconds);
  }

  /** One tick long ago and 255 at tick 10. */
  function Burst(): seq<nat> {
    [0] + seq(255, _ => 10)
  }

  /** A history on which a 256-slot ring misjudges: 255 hits are asked for, 255 are in the window, 254 are counted. */
  lemma Misjudged256(r: Ring)
    requires Holds(r, Stamps(Burst()), 256)
    ensures RecentTicks(Burst(), 10, 5, 1) >= Need(255)
    ensures Hits(Visible(r), Cutoff(At(10), 5), 1) < Need(255)
  {
    var late: seq<nat> := seq(255, _ => 10);
    AllRecent(late, 10, 5, 1);
    assert Burst()[1..] == late && Burst()[0] == 0;
    hide Holds, Hits;
    VerdictOf256(r, Burst(), 10, 5, 1, 255);
  }
}
