// Decimal numbers, separators and dotted addresses as the daemon and the kernel module write them.
module Text {
  import opened Seqs

  type Byte = n: nat | n < 256

  predicate IsDigit(c: char) {
    '0' <= c <= '9'
  }

  predicate AllDigits(s: string) {
    forall i :: 0 <= i < |s| ==> IsDigit(s[i])
  }

  function DigitOf(n: nat): (c: char)
    requires n < 10
    ensures IsDigit(c) && c as int - '0' as int == n
  {
    '0' + n as char
  }

  /** %u, %lu and std::to_string */
  function Decimal(n: nat): (s: string)
    ensures s != "" && AllDigits(s)
  {
    if n < 10 then [DigitOf(n)] else Decimal(n / 10) + [DigitOf(n % 10)]
  }

  function Value(s: string): nat
    requires AllDigits(s)
  {
    if s == "" then 0 else 10 * Value(s[..|s| - 1]) + (Last(s) as int - '0' as int)
  }

  /** kstrtoul on a whole token: digits only, no more than limit. */
  function Number(s: string, limit: nat): (r: Option<nat>)
    ensures r.Some? ==> r.value <= limit
  {
    if s != "" && AllDigits(s) && Value(s) <= limit then Some(Value(s)) else None
  }

  lemma {:induction false} ValueOfDecimal(n: nat)
    ensures Value(Decimal(n)) == n
  {
    if n >= 10 {
      ValueOfDecimal(n / 10);
      assert Decimal(n)[..|Decimal(n)| - 1] == Decimal(n / 10);
    } else {
      assert Value("") == 0;
    }
  }

  /** The longest prefix of digits, which std::stoi and std::stoul read. */
  function DigitPrefix(s: string): (r: string)
    ensures AllDigits(r) && r <= s
  {
    if s == "" || !IsDigit(s[0]) then "" else [s[0]] + DigitPrefix(s[1..])
  }

  lemma {:induction false} DigitPrefixStops(a: string, b: string)
    requires AllDigits(a) && (b == "" || !IsDigit(b[0]))
    ensures DigitPrefix(a + b) == a
  {
    if a == "" {
      assert a + b == b;
    } else {
      assert (a + b)[1..] == a[1..] + b;
      DigitPrefixStops(a[1..], b);
    }
  }

  function SkipSpaces(s: string): string {
    if s != "" && s[0] == ' ' then SkipSpaces(s[1..]) else s
  }

  /** std::stoul: leading blanks, then digits; None is std::invalid_argument. */
  function Stoul(s: string): Option<nat> {
    var d := DigitPrefix(SkipSpaces(s));
    if d == "" then None else Some(Value(d))
  }

  lemma StoulOfDecimal(n: nat, rest: string)
    requires rest == "" || !IsDigit(rest[0])
    ensures Stoul(Decimal(n) + rest) == Some(n)
    ensures Stoul(" " + Decimal(n) + rest) == Some(n)
  {
    hide DigitPrefix, Value, Decimal;
    var d := Decimal(n);
    DigitPrefixStops(d, rest);
    ValueOfDecimal(n);
    assert IsDigit((d + rest)[0]);
    assert (" " + d + rest)[1..] == d + rest;
    assert SkipSpaces(d + rest) == d + rest;
  }

  // ---------------------------------------------------------------------------
  // strsep

  /** The tokens a strsep loop yields; there is always at least one. */
  function Split(s: string, sep: char): (r: seq<string>)
    ensures r != []
  {
    if s == "" then [""]
    else
      var rest := Split(s[1..], sep);
      if s[0] == sep then [""] + rest else [[s[0]] + rest[0]] + rest[1..]
  }

  function Join(parts: seq<string>, sep: string): string
    requires parts != []
  {
    if |parts| == 1 then parts[0] else parts[0] + sep + Join(parts[1..], sep)
  }

  lemma {:induction false} SplitFirst(a: string, sep: char, b: string)
    requires sep !in a
    ensures Split(a, sep) == [a]
    ensures Split(a + [sep] + b, sep) == [a] + Split(b, sep)
  {
    if a == "" {
      assert a + [sep] + b == [sep] + b;
      assert ([sep] + b)[1..] == b;
    } else {
      SplitFirst(a[1..], sep, b);
      assert (a + [sep] + b)[1..] == a[1..] + [sep] + b;
      assert [a[0]] + a[1..] == a;
    }
  }

  lemma {:induction false} SplitJoin(parts: seq<string>, sep: char)
    requires parts != [] && forall i :: 0 <= i < |parts| ==> sep !in parts[i]
    ensures Split(Join(parts, [sep]), sep) == parts
  {
    if |parts| == 1 {
      SplitFirst(parts[0], sep, "");
    } else {
      SplitFirst(parts[0], sep, Join(parts[1..], [sep]));
      SplitJoin(parts[1..], sep);
    }
  }

  // ---------------------------------------------------------------------------
  // Dotted IPv4 addresses

  predicate IsIPv4(addr: seq<nat>) {
    |addr| == 4 && forall i :: 0 <= i < 4 ==> addr[i] < 256
  }

  /** %pI4 */
  function Dotted(addr: seq<nat>): string
    requires IsIPv4(addr)
  {
    Decimal(addr[0]) + "." + Decimal(addr[1]) + "." + Decimal(addr[2]) + "." + Decimal(addr[3])
  }

  /** Four decimal parts below 256; None for anything else. */
  function ParseIPv4(s: string): (r: Option<seq<nat>>)
    ensures r.Some? ==> IsIPv4(r.value)
  {
    var t := Split(s, '.');
    if |t| != 4 then None
    else
      var (a, b, c, d) := (Number(t[0], 255), Number(t[1], 255), Number(t[2], 255), Number(t[3], 255));
      if a.Some? && b.Some? && c.Some? && d.Some? then Some([a.value, b.value, c.value, d.value]) else None
  }

  lemma SplitDotted(addr: seq<nat>)
    requires IsIPv4(addr)
    ensures Split(Dotted(addr), '.') == [Decimal(addr[0]), Decimal(addr[1]), Decimal(addr[2]), Decimal(addr[3])]
  {
    var (a, b, c, d) := (Decimal(addr[0]), Decimal(addr[1]), Decimal(addr[2]), Decimal(addr[3]));
    assert Dotted(addr) == a + "." + (b + "." + (c + "." + d));
    SplitFirst(d, '.', "");
    SplitFirst(c, '.', d);
    SplitFirst(b, '.', c + "." + d);
    SplitFirst(a, '.', b + "." + (c + "." + d));
  }

  lemma ParseOfDotted(addr: seq<nat>)
    requires IsIPv4(addr)
    ensures ParseIPv4(Dotted(addr)) == Some(addr)
  {
    SplitDotted(addr);
    ValueOfDecimal(addr[0]);
    ValueOfDecimal(addr[1]);
    ValueOfDecimal(addr[2]);
    ValueOfDecimal(addr[3]);
    assert addr == [addr[0], addr[1], addr[2], addr[3]];
  }

  predicate AddressChars(s: string) {
    forall i :: 0 <= i < |s| ==> IsDigit(s[i]) || s[i] == '.'
  }

  lemma DottedChars(addr: seq<nat>)
    requires IsIPv4(addr)
    ensures AddressChars(Dotted(addr)) && Dotted(addr) != ""
  {
  }
}
