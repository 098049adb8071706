// The bytes and texts themselves, position by position, where a law about writing and reading them back
// would also hold of another format.
module Layout {
  import opened Seqs
  import opened Text
  import opened TableModel
  import opened P = ProcFile
  import opened XtRecentProc
  import opened WriteBack
  import opened Messages
  import opened Wire
  import R = Ring

  // ---------------------------------------------------------------------------
  // Packets

  /** Eight bytes, the lowest first. */
  function Eight(n: nat): seq<Byte> {
    [n % 0x100, n / 0x100 % 0x100, n / 0x1_0000 % 0x100, n / 0x100_0000 % 0x100,
     n / 0x1_0000_0000 % 0x100, n / 0x100_0000_0000 % 0x100, n / 0x1_0000_0000_0000 % 0x100, n / 0x100_0000_0000_0000 % 0x100]
  }

  lemma OneMore(n: nat, k: nat, rest: seq<Byte>)
    requires LittleEndian(n / 256, k) == rest
    ensures LittleEndian(n, k + 1) == [n % 256] + rest
  {
  }

  lemma LittleIsEight(n: nat)
    ensures LittleEndian(n, 8) == Eight(n)
  {
    var (b, c, d, e) := (n / 0x100, n / 0x1_0000, n / 0x100_0000, n / 0x1_0000_0000);
    var (f, g, h) := (n / 0x100_0000_0000, n / 0x1_0000_0000_0000, n / 0x100_0000_0000_0000);
    assert b / 256 == c && c / 256 == d && d / 256 == e && e / 256 == f && f / 256 == g && g / 256 == h;
    assert LittleEndian(h / 256, 0) == [];
    hide LittleEndian;
    OneMore(h, 0, []);
    OneMore(g, 1, [h % 256]);
    OneMore(f, 2, [g % 256, h % 256]);
    OneMore(e, 3, [f % 256, g % 256, h % 256]);
    OneMore(d, 4, [e % 256, f % 256, g % 256, h % 256]);
    OneMore(c, 5, [d % 256, e % 256, f % 256, g % 256, h % 256]);
    OneMore(b, 6, [c % 256, d % 256, e % 256, f % 256, g % 256, h % 256]);
    OneMore(n, 7, [b % 256, c % 256, d % 256, e % 256, f % 256, g % 256, h % 256]);
  }

  /** The stamps of an entry, eight bytes each. */
  lemma {:induction false} StampAt(stamps: seq<nat>, i: nat)
    requires i < |stamps|
    ensures StampBytes(stamps)[8 * i..8 * i + 8] == Eight(stamps[i])
  {
    LittleIsEight(stamps[0]);
    hide LittleEndian, Eight;
    if i > 0 {
      StampAt(stamps[1..], i - 1);
      var (first, more) := (LittleEndian(stamps[0], 8), StampBytes(stamps[1..]));
      assert (first + more)[8 * i..8 * i + 8] == more[8 * (i - 1)..8 * (i - 1) + 8];
    } else {
      assert StampBytes(stamps)[..8] == LittleEndian(stamps[0], 8);
    }
  }

  /** A length in two bytes behind the two header bytes and the type. */
  function Front(kind: Byte, n: nat): seq<Byte> {
    [0xef, 0xab, kind, n % 256, n / 256 % 256]
  }

  lemma ControlLayout(kind: Byte)
    ensures Encode(Control(kind)) == [0xef, 0xab, kind, 0, 0]
  {
  }

  lemma AddressIs(addr: seq<nat>, a: RecentAction)
    requires IsIPv4(addr) && HasAddress(a) && AddressOf(a) == Dotted(addr)
    ensures Encodable(a) && AddressField(a) == [1, addr[0], addr[1], addr[2], addr[3]]
  {
    AddressRoundTrip(addr);
    hide Dotted, AddressBytes;
    assert [1] + addr == [1, addr[0], addr[1], addr[2], addr[3]];
  }

  /** ADD_UPD_ENTRY: family, address, index, ttl, the number of stamps, the stamps, and the table's name behind its
      length, which counts the terminator. */
  lemma UpdateLayout(table: string, e: UserEntry, addr: seq<nat>)
    requires IsIPv4(addr) && e.srcIp == Dotted(addr)
    ensures Encodable(AddUpdEntry(table, e))
    ensures Encode(Recent(AddUpdEntry(table, e)))
            == Front(4, 15 + 8 * |e.stamps| + |table|)
               + ([1, 1, addr[0], addr[1], addr[2], addr[3], e.index % 256, e.ttl % 256, |e.stamps| % 256]
                  + (StampBytes(e.stamps) + ([(|table| + 1) % 256] + Bytes(table))))
  {
    var a := AddUpdEntry(table, e);
    AddressIs(addr, a);
    hide *;
    UpdateBody(a, addr);
    RecentParts(a);
    HeaderIsFront(15 + 8 * |e.stamps| + |table|);
  }

  lemma UpdateBody(a: RecentAction, addr: seq<nat>)
    requires IsIPv4(addr) && a.AddUpdEntry? && Encodable(a) && AddressField(a) == [1, addr[0], addr[1], addr[2], addr[3]]
    ensures var e := a.entry;
            RecentBody(a) == [1, 1, addr[0], addr[1], addr[2], addr[3], e.index % 256, e.ttl % 256, |e.stamps| % 256]
                             + (StampBytes(e.stamps) + ([(|a.table| + 1) % 256] + Bytes(a.table)))
  {
    hide AddressField, Encodable, Bytes, Dotted, AddressBytes, StampBytes;
    var e := a.entry;
    Regroup(addr[0], addr[1], addr[2], addr[3], e.index % 256, e.ttl % 256, |e.stamps| % 256, StampBytes(e.stamps), NameField(a.table));
  }

  lemma Regroup(a: Byte, b: Byte, c: Byte, d: Byte, index: Byte, ttl: Byte, n: Byte, stamps: seq<Byte>, name: seq<Byte>)
    ensures [1] + ([1, a, b, c, d] + (([index, ttl, n] + stamps) + name)) == [1, 1, a, b, c, d, index, ttl, n] + (stamps + name)
  {
  }

  /** DELETE_ENTRY */
  lemma DeleteLayout(table: string, ip: string, addr: seq<nat>)
    requires IsIPv4(addr) && ip == Dotted(addr)
    ensures Encodable(DeleteEntry(table, ip))
    ensures Encode(Recent(DeleteEntry(table, ip)))
            == Front(4, 12 + |table|) + ([2, 1, addr[0], addr[1], addr[2], addr[3]] + ([(|table| + 1) % 256] + Bytes(table)))
  {
    var a := DeleteEntry(table, ip);
    AddressIs(addr, a);
    hide *;
    DeleteBody(a, addr);
    RecentParts(a);
    HeaderIsFront(12 + |table|);
  }

  lemma DeleteBody(a: RecentAction, addr: seq<nat>)
    requires IsIPv4(addr) && a.DeleteEntry? && Encodable(a) && AddressField(a) == [1, addr[0], addr[1], addr[2], addr[3]]
    ensures RecentBody(a) == [2, 1, addr[0], addr[1], addr[2], addr[3]] + ([(|a.table| + 1) % 256] + Bytes(a.table))
  {
    hide AddressField, Encodable, Bytes, Dotted, AddressBytes;
    assert [2] + ([1, addr[0], addr[1], addr[2], addr[3]] + NameField(a.table)) == [2, 1, addr[0], addr[1], addr[2], addr[3]] + NameField(a.table);
  }

  /** FLUSH_TABLE and DELETE_TABLE */
  lemma TableLayout(table: string)
    ensures Encode(Recent(FlushTable(table))) == Front(4, 7 + |table|) + ([3] + ([(|table| + 1) % 256] + Bytes(table)))
    ensures Encode(Recent(DeleteTable(table))) == Front(4, 7 + |table|) + ([4] + ([(|table| + 1) % 256] + Bytes(table)))
  {
    hide Bytes;
    assert RecentBody(FlushTable(table)) == [3] + NameField(table);
    assert RecentBody(DeleteTable(table)) == [4] + NameField(table);
    hide RecentBody, Header;
    HeaderIsFront(7 + |table|);
  }

  lemma IdIs(id: nat)
    ensures IdField(id) == [id % 256, 0, 0, 0]
  {
    assert Limit(1) == 256 && Limit(2) == 256 * 256 && Limit(3) == 256 * 256 * 256;
  }

  /** A session's action: the farm, the low bytes of the three ids, the key, and for SESS_ADD, SESS_UPDATE and SESS_WRITE
      the content and the time. */
  lemma SessionLayout(a: HttpAction)
    requires a.code < 256 && a.code != 1
    ensures var more := if a.code in {2, 4, 5} then [|a.content| % 256] + Bytes(a.content) + Eight(a.lastAcc) else [];
            Encode(Http(a))
            == Front(6, 20 + |a.farm| + |a.key| + |more|)
               + ([a.code, |a.farm| % 256] + (Bytes(a.farm)
               + ([a.listener % 256, 0, 0, 0, a.service % 256, 0, 0, 0, a.backend % 256, 0, 0, 0, |a.key| % 256]
                  + (Bytes(a.key) + more))))
  {
    IdIs(a.listener);
    IdIs(a.service);
    IdIs(a.backend);
    LittleIsEight(a.lastAcc);
    hide Bytes, IdField, LittleEndian, Eight, Header, HttpBody;
    SessionBody(a);
    HeaderIsFront(20 + |a.farm| + |a.key| + |SessionField(a)|);
  }

  lemma SessionBody(a: HttpAction)
    requires a.code < 256 && a.code != 1
    requires IdField(a.listener) == [a.listener % 256, 0, 0, 0] && IdField(a.service) == [a.service % 256, 0, 0, 0]
    requires IdField(a.backend) == [a.backend % 256, 0, 0, 0]
    ensures HttpBody(a)
            == [a.code, |a.farm| % 256] + (Bytes(a.farm)
               + ([a.listener % 256, 0, 0, 0, a.service % 256, 0, 0, 0, a.backend % 256, 0, 0, 0, |a.key| % 256]
                  + (Bytes(a.key) + SessionField(a))))
  {
    hide Bytes, IdField, SessionField;
    SessionParts(a.code, |a.farm| % 256, Bytes(a.farm), a.listener % 256, a.service % 256, a.backend % 256,
                 |a.key| % 256, Bytes(a.key), SessionField(a));
  }

  lemma HeaderIsFront(n: nat)
    ensures Header(6, n) == Front(6, n) && Header(4, n) == Front(4, n)
  {
  }

  lemma SessionParts(code: Byte, n: Byte, farm: seq<Byte>, l: Byte, s: Byte, b: Byte, k: Byte, key: seq<Byte>, more: seq<Byte>)
    ensures [code] + (([n] + farm) + ([l, 0, 0, 0] + ([s, 0, 0, 0] + ([b, 0, 0, 0] + (([k] + key) + more)))))
            == [code, n] + (farm + ([l, 0, 0, 0, s, 0, 0, 0, b, 0, 0, 0, k] + (key + more)))
  {
    assert [l, 0, 0, 0] + ([s, 0, 0, 0] + ([b, 0, 0, 0] + (([k] + key) + more)))
           == [l, 0, 0, 0, s, 0, 0, 0, b, 0, 0, 0, k] + (key + more);
  }

  /** SYNC_REQUEST carries the farm alone. */
  lemma RequestLayout(a: HttpAction)
    requires a.code == 1
    ensures Encode(Http(a)) == Front(6, 7 + |a.farm|) + ([1, |a.farm| % 256] + Bytes(a.farm))
  {
    hide Bytes;
    assert HttpBody(a) == [1, |a.farm| % 256] + Bytes(a.farm);
  }

  // ---------------------------------------------------------------------------
  // Texts

  lemma Numerals()
    ensures Decimal(0) == "0" && Decimal(1) == "1" && Decimal(2) == "2"
    ensures Decimal(10) == "10" && Decimal(20) == "20" && Decimal(64) == "64" && Decimal(300) == "300"
  {
  }

  lemma FieldIs(tag: string, value: string, rest: string)
    ensures P.Field(tag, value, rest) == (" " + tag) + (value + rest)
  {
  }

  /** A row of the proc file. */
  lemma RowLayout(e: Entry, mask: nat)
    requires R.Shape(e.ring, mask) && mask < 255 && R.PowerOfTwo(mask + 1) && e.key.family == IPv4 && IsIPv4(e.key.addr)
    ensures Row(e, mask)
            == "src=" + (Dotted(e.key.addr) + (" ttl: " + (Decimal(e.ttl)
               + (" last_seen: " + (Decimal(e.ring.slots[e.ring.index - 1])
               + (" oldest_pkt: " + (Decimal(e.ring.index) + (" " + Join(Decimals(R.Visible(e.ring)), ", ")))))))))
  {
    LastSeenSlot(e.ring, mask);
    hide Decimal, Decimals, Dotted, Join, LastSeen, P.Field;
    var stamps := " " + Join(Decimals(R.Visible(e.ring)), ", ");
    var oldest := P.Field("oldest_pkt: ", Decimal(e.ring.index), stamps);
    var seen := P.Field("last_seen: ", Decimal(LastSeen(e.ring, mask)), oldest);
    FieldIs("oldest_pkt: ", Decimal(e.ring.index), stamps);
    FieldIs("last_seen: ", Decimal(LastSeen(e.ring, mask)), oldest);
    FieldIs("ttl: ", Decimal(e.ttl), seen);
    assert " " + "oldest_pkt: " == " oldest_pkt: " && " " + "last_seen: " == " last_seen: " && " " + "ttl: " == " ttl: ";
  }

  lemma SortedTwo()
    ensures Sorted([300, 20]) == [20, 300]
  {
    assert Sorted([20]) == [20];
    assert [300, 20][1..] == [20];
  }

  /** The command that restores an address with the stamps 20 and 300. */
  lemma CommandText()
    ensures Command(UserEntry("10.0.0.1", 64, 2, [300, 20])) == "*10.0.0.1;64;20;300;"
  {
    hide Join, Tokens;
    TokensText(UserEntry("10.0.0.1", 64, 2, [300, 20]));
    JoinedText();
    Starred();
  }

  lemma Starred()
    ensures "*" + "10.0.0.1;64;20;300;" == "*10.0.0.1;64;20;300;"
  {
  }

  lemma JoinedText()
    ensures Join(["10.0.0.1", "64", "20", "300", ""], ";") == "10.0.0.1;64;20;300;"
  {
    hide Join;
    JoinFive("10.0.0.1", "64", "20", "300", "");
    assert "300" + ";" + "" == "300;";
    assert "20" + ";" + "300;" == "20;300;";
    assert "64" + ";" + "20;300;" == "64;20;300;";
  }

  lemma TokensText(e: UserEntry)
    requires e == UserEntry("10.0.0.1", 64, 2, [300, 20])
    ensures [e.srcIp] + Tokens(e) == ["10.0.0.1", "64", "20", "300", ""]
  {
    Numerals();
    SortedTwo();
    hide Decimal, Sorted;
    assert Decimals([20, 300]) == ["20", "300"];
  }

  lemma JoinFive(a: string, b: string, c: string, d: string, e: string)
    ensures Join([a, b, c, d, e], ";") == a + ";" + (b + ";" + (c + ";" + (d + ";" + e)))
  {
    assert [a, b, c, d, e][1..] == [b, c, d, e] && [b, c, d, e][1..] == [c, d, e] && [c, d, e][1..] == [d, e] && [d, e][1..] == [e];
    assert Join([d, e], ";") == d + ";" + e;
    assert Join([c, d, e], ";") == c + ";" + (d + ";" + e);
  }
}
