// Wrapping time arithmetic on the kernel's tick counter (unsigned long jiffies).
module Jiffies {
  import Division

  const WORD: nat := 0x1_0000_0000_0000_0000
  const HALF: nat := 0x8000_0000_0000_0000
  const UINT: nat := 0x1_0000_0000

  /** A stored time stamp: the low 64 bits of the tick count. */
  type Stamp = n: nat | n < WORD

  /** What the counter shows at a given tick since boot. */
  function At(tick: nat): Stamp {
    tick % WORD
  }

  /** time_after(a, b): (long)(b - a) < 0 */
  predicate TimeAfter(a: Stamp, b: Stamp) {
    (b - a) % WORD >= HALF
  }

  /** seconds * HZ, evaluated in unsigned int. */
  function Span(seconds: nat, hz: nat): (n: nat)
    ensures n < UINT
  {
    (seconds * hz) % UINT
  }

  function Cutoff(now: Stamp, span: nat): Stamp {
    (now - span) % WORD
  }

  /** A rule's window test: no limit when seconds is 0. */
  predicate InWindow(cutoff: Stamp, seconds: nat, s: Stamp) {
    seconds == 0 || !TimeAfter(cutoff, s)
  }

  /** For a stamp less than one counter period old, the wrapped test agrees with real elapsed
      time exactly when the stamp is at most half a period older than the window. */
  lemma WindowIsRealTime(tick: nat, now: nat, span: nat)
    requires tick <= now < tick + WORD && span < UINT
    ensures !TimeAfter(Cutoff(At(now), span), At(tick))
            <==> (tick + span >= now || now - tick - span > HALF)
  {
    var c := Cutoff(At(now), span);
    var p, q := tick / WORD, now / WORD;
    var j := (At(now) - span) / WORD + q;
    assert c == now - span - j * WORD;
    var d := tick + span - now;
    var e := if d >= 0 then d else d + WORD;
    Division.Unique(At(tick) - c, WORD, j - p - (if d >= 0 then 0 else 1), e);
  }

  /** The same for a stamp that need not lie in the past: the test is right up to half the counter's range on
      either side of the window's edge. */
  lemma WindowNearby(tick: nat, now: nat, span: nat)
    requires now - HALF <= tick + span < now + HALF && span < UINT
    ensures !TimeAfter(Cutoff(At(now), span), At(tick)) <==> tick + span >= now
  {
    var c := Cutoff(At(now), span);
    var p, q := tick / WORD, now / WORD;
    var j := (At(now) - span) / WORD + q;
    assert c == now - span - j * WORD;
    var d := tick + span - now;
    var e := if d >= 0 then d else d + WORD;
    Division.Unique(At(tick) - c, WORD, j - p - (if d >= 0 then 0 else 1), e);
  }
}
