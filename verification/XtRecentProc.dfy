// The daemon's reader of the proc file (xt_recent_proc) and its table entries.
module XtRecentProc {
  import opened Seqs
  import opened Text
  import opened TableModel
  import opened ProcFile
  import R = Ring

  /** xt_recent_entry */
  datatype UserEntry = UserEntry(srcIp: string, ttl: nat, index: nat, stamps: seq<nat>)

  /** The text after the first occurrence of the tag. */
  function After(s: string, tag: string): Option<string> {
    if |s| < |tag| then None
    else if s[..|tag|] == tag then Some(s[|tag|..])
    else if s == "" then None
    else After(s[1..], tag)
  }

  /** How much of s the pattern of k groups matches: each is up to n or three digits, as many as the rest lets it
      have, with any character between two groups. */
  function Groups(s: string, k: nat, n: nat): (r: Option<nat>)
    requires k > 0
    ensures r.Some? ==> r.value <= |s|
    decreases k, n
  {
    if n == 0 then None
    else if n <= |s| && AllDigits(s[..n]) && k == 1 then Some(n)
    else if n < |s| && AllDigits(s[..n]) && s[n] != '\n' && k > 1 && Groups(s[n + 1..], k - 1, 3).Some? then
      Some(n + 1 + Groups(s[n + 1..], k - 1, 3).value)
    else Groups(s, k, n - 1)
  }

  /** The source address of a row, or nothing where the pattern does not match. */
  function SourceOf(s: string): string {
    match Groups(s, 4, 3)
    case Some(n) => s[..n]
    case None => ""
  }

  /** The time stamp list with its zeros dropped; None is a std::stoul failure. */
  function ParseStamps(tokens: seq<string>): Option<seq<nat>> {
    if tokens == [] then Some([])
    else
      match (Stoul(tokens[0]), ParseStamps(tokens[1..]))
      case (Some(n), Some(rest)) => Some(if n != 0 then [n] + rest else rest)
      case _ => None
  }

  /** parse_file_row on rows of the shape the module prints; None is an exception. */
  function ParseRow(row: string): Option<UserEntry> {
    match (After(row, "src="), After(row, "ttl: "), After(row, "oldest_pkt: "))
    case (Some(src), Some(ttl), Some(index)) =>
      var digits := DigitPrefix(index);
      if |index| <= |digits| then None
      else (
        match (Stoul(ttl), Stoul(index), ParseStamps(Split(index[|digits| + 1..], ',')))
        case (Some(t), Some(i), Some(stamps)) => Some(UserEntry(SourceOf(src), t, i, stamps))
        case _ => None)
    case _ => None
  }

  function NonZero(s: seq<nat>): seq<nat> {
    if s == [] then [] else if s[0] != 0 then [s[0]] + NonZero(s[1..]) else NonZero(s[1..])
  }

  lemma {:induction false} NonZeroKeeps(s: seq<nat>)
    ensures NonZero(s) == s <==> 0 !in s
    ensures |NonZero(s)| <= |s|
  {
    if s != [] {
      NonZeroKeeps(s[1..]);
      if s[0] != 0 {
        assert NonZero(s) == [s[0]] + NonZero(s[1..]) && s == [s[0]] + s[1..];
        assert NonZero(s)[1..] == NonZero(s[1..]);
      }
    }
  }

  lemma AfterHere(tag: string, rest: string)
    ensures After(tag + rest, tag) == Some(rest)
  {
    assert (tag + rest)[..|tag|] == tag && (tag + rest)[|tag|..] == rest;
  }

  lemma {:induction false} AfterSkip(pre: string, rest: string, tag: string)
    requires tag != "" && tag[0] !in pre
    ensures After(pre + rest, tag) == After(rest, tag)
  {
    if pre == "" {
      assert pre + rest == rest;
    } else {
      var s := pre + rest;
      assert s[0] == pre[0] && s[1..] == pre[1..] + rest;
      assert |s| >= |tag| ==> s[..|tag|][0] == pre[0];
      AfterSkip(pre[1..], rest, tag);
    }
  }

  /** Greedy matching takes a whole group of digits. */
  lemma TakeGroup(d: string, rest: string, k: nat)
    requires AllDigits(d) && 1 <= |d| <= 3 && rest != "" && !IsDigit(rest[0]) && rest[0] != '\n' && k > 0
    ensures k == 1 ==> Groups(d + rest, k, 3) == Some(|d|)
    ensures k > 1 && Groups(rest[1..], k - 1, 3).Some? ==> Groups(d + rest, k, 3) == Some(|d| + 1 + Groups(rest[1..], k - 1, 3).value)
  {
    var s := d + rest;
    assert s[..|d|] == d && s[|d|] == rest[0] && s[|d| + 1..] == rest[1..];
    forall n | |d| < n <= 3 && n <= |s| ensures !AllDigits(s[..n]) {
      assert s[..n][|d|] == rest[0];
    }
    assert |d| < 3 ==> Groups(s, k, 3) == Groups(s, k, 2);
    assert |d| < 2 ==> Groups(s, k, 2) == Groups(s, k, 1);
  }

  lemma ThreeDigits(n: nat)
    requires n < 256
    ensures IsGroup(Decimal(n))
  {
    if n >= 10 {
      assert |Decimal(n)| == |Decimal(n / 10)| + 1;
      if n / 10 >= 10 {
        assert |Decimal(n / 10)| == |Decimal(n / 10 / 10)| + 1;
      }
    }
  }

  /** One to three digits. */
  predicate IsGroup(d: string) {
    AllDigits(d) && 1 <= |d| <= 3
  }

  /** A group with a dot behind it. */
  lemma TakeDotted(d: string, rest: string, k: nat, n: nat)
    requires IsGroup(d) && k > 1 && Groups(rest, k - 1, 3) == Some(n)
    ensures Groups(d + ("." + rest), k, 3) == Some(|d| + 1 + n)
  {
    assert ("." + rest)[1..] == rest;
    TakeGroup(d, "." + rest, k);
  }

  lemma TakeLast(d: string, rest: string)
    requires IsGroup(d) && rest != "" && rest[0] == ' '
    ensures Groups(d + rest, 1, 3) == Some(|d|)
  {
    TakeGroup(d, rest, 1);
  }

  /** The dotted groups a, b, c and d; the tails are what follows each dot. */
  lemma FourGroups(a: string, b: string, c: string, d: string, rest: string, tailB: string, tailC: string, tailD: string)
    requires IsGroup(a) && IsGroup(b) && IsGroup(c) && IsGroup(d) && rest != "" && rest[0] == ' '
    requires tailD == d + rest && tailC == c + ("." + tailD) && tailB == b + ("." + tailC)
    ensures Groups(a + ("." + tailB), 4, 3) == Some(|a| + 1 + |b| + 1 + |c| + 1 + |d|)
  {
    hide *;
    TakeLast(d, rest);
    TakeDotted(c, tailD, 2, |d|);
    TakeDotted(b, tailC, 3, |c| + 1 + |d|);
    TakeDotted(a, tailB, 4, |b| + 1 + |c| + 1 + |d|);
  }

  lemma SourceOfDotted(addr: seq<nat>, rest: string)
    requires IsIPv4(addr) && rest != "" && rest[0] == ' '
    ensures SourceOf(Dotted(addr) + rest) == Dotted(addr)
  {
    var (a, b, c, d) := (Decimal(addr[0]), Decimal(addr[1]), Decimal(addr[2]), Decimal(addr[3]));
    ThreeDigits(addr[0]);
    ThreeDigits(addr[1]);
    ThreeDigits(addr[2]);
    ThreeDigits(addr[3]);
    hide Decimal, Groups, IsGroup;
    FourGroups(a, b, c, d, rest, b + ("." + (c + ("." + (d + rest)))), c + ("." + (d + rest)), d + rest);
    DotsReassociate(a, b, c, d, rest);
  }

  lemma DotsReassociate(a: string, b: string, c: string, d: string, rest: string)
    ensures var s := a + "." + b + "." + c + "." + d;
            && s + rest == a + ("." + (b + ("." + (c + ("." + (d + rest))))))
            && |s| == |a| + 1 + |b| + 1 + |c| + 1 + |d| && (s + rest)[..|s|] == s
  {
    assert b + "." + c + "." + d + rest == b + ("." + (c + ("." + (d + rest))));
  }

  /** The tokens of a printed stamp list: all but the first start with a blank. */
  function Blanked(s: seq<nat>): seq<string> {
    if s == [] then [] else [" " + Decimal(s[0])] + Blanked(s[1..])
  }

  lemma {:induction false} SplitPrinted(s: seq<nat>, lead: string)
    requires s != [] && (lead == "" || lead == " ")
    ensures Split(lead + Join(Decimals(s), ", "), ',') == [lead + Decimal(s[0])] + Blanked(s[1..])
  {
    var d := lead + Decimal(s[0]);
    if |s| == 1 {
      assert lead + Join(Decimals(s), ", ") == d;
      SplitFirst(d, ',', "");
    } else {
      var rest := " " + Join(Decimals(s[1..]), ", ");
      assert Decimals(s)[1..] == Decimals(s[1..]);
      assert lead + Join(Decimals(s), ", ") == d + [','] + rest;
      SplitFirst(d, ',', rest);
      SplitPrinted(s[1..], " ");
    }
  }

  lemma {:induction false} ParseBlanked(s: seq<nat>)
    ensures ParseStamps(Blanked(s)) == Some(NonZero(s))
  {
    if s != [] {
      StoulOfDecimal(s[0], "");
      assert " " + Decimal(s[0]) + "" == " " + Decimal(s[0]);
      ParseBlanked(s[1..]);
      assert Blanked(s)[0] == " " + Decimal(s[0]) && Blanked(s)[1..] == Blanked(s[1..]);
    }
  }

  lemma ParsePrinted(s: seq<nat>)
    requires s != []
    ensures ParseStamps(Split(Join(Decimals(s), ", "), ',')) == Some(NonZero(s))
  {
    SplitPrinted(s, "");
    assert "" + Join(Decimals(s), ", ") == Join(Decimals(s), ", ") && "" + Decimal(s[0]) == Decimal(s[0]);
    StoulOfDecimal(s[0], "");
    assert Decimal(s[0]) + "" == Decimal(s[0]);
    ParseBlanked(s[1..]);
    var tokens := [Decimal(s[0])] + Blanked(s[1..]);
    assert tokens[0] == Decimal(s[0]) && tokens[1..] == Blanked(s[1..]);
  }

  /** Parsing a printed IPv4 row recovers address, ttl, index and the visible stamps in slot order
      except zeros, so all of them exactly when no visible stamp is zero. */
  lemma RowRoundTrip(e: Entry, mask: nat)
    requires R.Shape(e.ring, mask) && mask < 256 && R.PowerOfTwo(mask + 1)
    requires e.key.family == IPv4 && IsIPv4(e.key.addr)
    ensures ParseRow(Row(e, mask))
            == Some(UserEntry(Dotted(e.key.addr), e.ttl, e.ring.index, NonZero(R.Visible(e.ring))))
    ensures NonZero(R.Visible(e.ring)) == R.Visible(e.ring) <==> 0 !in R.Visible(e.ring)
  {
    var ip, ttl, seen, index := Dotted(e.key.addr), Decimal(e.ttl), Decimal(LastSeen(e.ring, mask)), Decimal(e.ring.index);
    var stamps := Join(Decimals(R.Visible(e.ring)), ", ");
    hide Decimal, Decimals, Join, LastSeen, After, Split, DigitPrefix, Stoul, SourceOf, ParseStamps, NonZero;
    var f3 := Field("oldest_pkt: ", index, " " + stamps);
    var f2 := Field("last_seen: ", seen, f3);
    var f1 := Field("ttl: ", ttl, f2);
    DottedChars(e.key.addr);
    AfterHere("src=", ip + f1);
    SourceOfDotted(e.key.addr, f1);
    FindTtl(ip, ttl, f2);
    FindIndex(ip, ttl, seen, index, " " + stamps);
    StoulOfDecimal(e.ttl, f2);
    StoulOfDecimal(e.ring.index, " " + stamps);
    DigitPrefixStops(index, " " + stamps);
    DropField(index, stamps);
    ParsePrinted(R.Visible(e.ring));
    NonZeroKeeps(R.Visible(e.ring));
  }

  lemma FindField(tag: string, value: string, rest: string)
    requires tag != "" && tag[0] != ' '
    ensures After(Field(tag, value, rest), tag) == Some(value + rest)
  {
    AfterSkip(" ", tag + (value + rest), tag);
    AfterHere(tag, value + rest);
  }

  lemma SkipField(other: string, value: string, rest: string, tag: string)
    requires tag != "" && tag[0] != ' ' && tag[0] !in other && tag[0] !in value
    ensures After(Field(other, value, rest), tag) == After(rest, tag)
  {
    AfterSkip(" ", other + (value + rest), tag);
    AfterSkip(other, value + rest, tag);
    AfterSkip(value, rest, tag);
  }

  lemma FindTtl(ip: string, ttl: string, rest: string)
    requires AddressChars(ip)
    ensures After("src=" + (ip + Field("ttl: ", ttl, rest)), "ttl: ") == Some(ttl + rest)
  {
    AfterSkip("src=", ip + Field("ttl: ", ttl, rest), "ttl: ");
    AfterSkip(ip, Field("ttl: ", ttl, rest), "ttl: ");
    FindField("ttl: ", ttl, rest);
  }

  lemma FindIndex(ip: string, ttl: string, seen: string, index: string, rest: string)
    requires AddressChars(ip) && AllDigits(ttl) && AllDigits(seen)
    ensures var f3 := Field("oldest_pkt: ", index, rest);
            After("src=" + (ip + Field("ttl: ", ttl, Field("last_seen: ", seen, f3))), "oldest_pkt: ")
            == Some(index + rest)
  {
    var f3 := Field("oldest_pkt: ", index, rest);
    var f2 := Field("last_seen: ", seen, f3);
    var f1 := Field("ttl: ", ttl, f2);
    AfterSkip("src=", ip + f1, "oldest_pkt: ");
    AfterSkip(ip, f1, "oldest_pkt: ");
    SkipField("ttl: ", ttl, f2, "oldest_pkt: ");
    SkipField("last_seen: ", seen, f3, "oldest_pkt: ");
    FindField("oldest_pkt: ", index, rest);
  }

  lemma DropField(field: string, rest: string)
    ensures (field + (" " + rest))[|field| + 1..] == rest
  {
  }

  /** What a row shows as last seen reads as the newest stamp. */
  lemma LastSeenReads(e: Entry, mask: nat)
    requires R.Shape(e.ring, mask) && mask < 255 && R.PowerOfTwo(mask + 1) && e.key.family == IPv4 && IsIPv4(e.key.addr)
    ensures After(Row(e, mask), "last_seen: ").Some?
    ensures Stoul(After(Row(e, mask), "last_seen: ").value) == Some(e.ring.slots[e.ring.index - 1])
  {
    LastSeenSlot(e.ring, mask);
    DottedChars(e.key.addr);
    var (ip, ttl, seen) := (Dotted(e.key.addr), Decimal(e.ttl), Decimal(LastSeen(e.ring, mask)));
    var rest := Field("oldest_pkt: ", Decimal(e.ring.index), " " + Join(Decimals(R.Visible(e.ring)), ", "));
    StoulOfDecimal(LastSeen(e.ring, mask), rest);
    hide Decimal, Dotted, Stoul, Join, LastSeen;
    FindSeen(ip, ttl, seen, rest);
  }

  /** One character that starts the tag, with another behind it than the tag has. */
  lemma NotYet(c: string, rest: string, tag: string)
    requires |c| == 1 && |tag| > 1 && rest != "" && rest[0] != tag[1]
    ensures After(c + rest, tag) == After(rest, tag)
  {
    assert (c + rest)[1..] == rest;
    assert |c + rest| >= |tag| ==> (c + rest)[..|tag|][1] == rest[0];
  }

  lemma SkipTtl(ttl: string, rest: string)
    requires AllDigits(ttl)
    ensures After(Field("ttl: ", ttl, rest), "last_seen: ") == After(rest, "last_seen: ")
  {
    hide After;
    var s1 := ttl + rest;
    var s2 := ": " + s1;
    var s3 := "l" + s2;
    AfterSkip(ttl, rest, "last_seen: ");
    AfterSkip(": ", s1, "last_seen: ");
    NotYet("l", s2, "last_seen: ");
    AfterSkip(" tt", s3, "last_seen: ");
    assert Field("ttl: ", ttl, rest) == " tt" + s3;
  }

  lemma FindSeen(ip: string, ttl: string, seen: string, rest: string)
    requires AddressChars(ip) && AllDigits(ttl)
    ensures After("src=" + (ip + Field("ttl: ", ttl, Field("last_seen: ", seen, rest))), "last_seen: ") == Some(seen + rest)
  {
    hide After, Field;
    var f2 := Field("last_seen: ", seen, rest);
    var f1 := Field("ttl: ", ttl, f2);
    FindField("last_seen: ", seen, rest);
    SkipTtl(ttl, f2);
    AfterSkip(ip, f1, "last_seen: ");
    AfterSkip("src=", ip + f1, "last_seen: ");
  }
}
