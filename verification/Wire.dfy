// The byte format of packets: a five-byte header, then a body that depends on the packet type.
module Wire {
  import Division
  import opened Seqs
  import opened Text
  import opened XtRecentProc
  import opened Messages
  import opened Jiffies

  const HEADER_1 := 0xef
  const HEADER_2 := 0xab
  const XT_RECENT_SYNC := 4
  const XT_RECENT_TABLE := 5
  const HTTP_SYNC := 6

  // ---------------------------------------------------------------------------
  // Bytes

  function Bytes(s: string): (r: seq<Byte>)
    ensures |r| == |s|
  {
    seq(|s|, i requires 0 <= i < |s| => (s[i] as int) % 256)
  }

  function Chars(b: seq<Byte>): (r: string)
    ensures |r| == |b|
  {
    seq(|b|, i requires 0 <= i < |b| => b[i] as char)
  }

  predicate Narrow(s: string) {
    forall i :: 0 <= i < |s| ==> (s[i] as int) < 256
  }

  lemma CharsOfBytes(s: string)
    requires Narrow(s)
    ensures Chars(Bytes(s)) == s
  {
  }

  /** k bytes of n, least significant first. */
  function LittleEndian(n: nat, k: nat): (r: seq<Byte>)
    ensures |r| == k
  {
    if k == 0 then [] else [n % 256] + LittleEndian(n / 256, k - 1)
  }

  function FromLittleEndian(b: seq<Byte>): nat {
    if b == [] then 0 else b[0] + 256 * FromLittleEndian(b[1..])
  }

  function Limit(k: nat): nat {
    if k == 0 then 1 else 256 * Limit(k - 1)
  }

  lemma {:induction false} LittleEndianRoundTrip(n: nat, k: nat)
    requires n < Limit(k)
    ensures FromLittleEndian(LittleEndian(n, k)) == n
  {
    if k > 0 {
      LittleEndianRoundTrip(n / 256, k - 1);
    }
  }

  lemma EightBytes()
    ensures Limit(8) == WORD
  {
    assert Limit(4) == 0x1_0000_0000;
    assert Limit(6) == 0x1_0000_0000_0000;
  }

  function StampBytes(stamps: seq<nat>): (r: seq<Byte>)
    ensures |r| == 8 * |stamps|
  {
    if stamps == [] then [] else LittleEndian(stamps[0], 8) + StampBytes(stamps[1..])
  }

  function ReadStamps(b: seq<Byte>, n: nat): seq<nat>
    requires 8 * n <= |b|
  {
    if n == 0 then [] else [FromLittleEndian(b[..8])] + ReadStamps(b[8..], n - 1)
  }

  lemma Skip(a: seq<Byte>, b: seq<Byte>)
    ensures (a + b)[..|a|] == a && (a + b)[|a|..] == b
  {
  }

  lemma {:induction false} StampsRoundTrip(stamps: seq<nat>, rest: seq<Byte>)
    requires forall i :: 0 <= i < |stamps| ==> stamps[i] < WORD
    ensures ReadStamps(StampBytes(stamps) + rest, |stamps|) == stamps
  {
    if stamps != [] {
      EightBytes();
      LittleEndianRoundTrip(stamps[0], 8);
      StampsRoundTrip(stamps[1..], rest);
      hide LittleEndian, FromLittleEndian;
      var (first, more) := (LittleEndian(stamps[0], 8), StampBytes(stamps[1..]) + rest);
      assert StampBytes(stamps) + rest == first + more;
      Skip(first, more);
    }
  }

  /** get_ip_address_v4; a part that is no number makes std::stoi throw. */
  function AddressBytes(parts: seq<string>): Option<seq<Byte>> {
    if parts == [] then Some([])
    else match (Stoul(parts[0]), AddressBytes(parts[1..]))
      case (Some(n), Some(rest)) => Some([n % 256] + rest)
      case _ => None
  }

  lemma AddressBytesCons(n: nat, parts: seq<string>, rest: seq<Byte>)
    requires n < 256 && AddressBytes(parts) == Some(rest)
    ensures AddressBytes([Decimal(n)] + parts) == Some([n] + rest)
  {
    StoulOfDecimal(n, "");
    assert Decimal(n) + "" == Decimal(n);
    assert ([Decimal(n)] + parts)[1..] == parts;
  }

  lemma AddressRoundTrip(addr: seq<nat>)
    requires IsIPv4(addr)
    ensures AddressBytes(Split(Dotted(addr), '.')) == Some(addr)
  {
    SplitDotted(addr);
    AddressBytesCons(addr[3], [], []);
    AddressBytesCons(addr[2], [Decimal(addr[3])] + [], [addr[3]] + []);
    AddressBytesCons(addr[1], [Decimal(addr[2])] + ([Decimal(addr[3])] + []), [addr[2]] + ([addr[3]] + []));
    AddressBytesCons(addr[0], [Decimal(addr[1])] + ([Decimal(addr[2])] + ([Decimal(addr[3])] + [])),
                     [addr[1]] + ([addr[2]] + ([addr[3]] + [])));
    assert Split(Dotted(addr), '.') == [Decimal(addr[0])] + ([Decimal(addr[1])] + ([Decimal(addr[2])] + ([Decimal(addr[3])] + [])));
    assert addr == [addr[0]] + ([addr[1]] + ([addr[2]] + ([addr[3]] + [])));
  }

  // ---------------------------------------------------------------------------
  // Serialization

  /** base_pkt_parser::serialize, with the length the body's serializer stores last. */
  function Header(kind: nat, length: nat): (r: seq<Byte>)
    ensures |r| == 5
  {
    [HEADER_1, HEADER_2, kind % 256, length % 256, (length / 256) % 256]
  }

  function ActionCode(a: RecentAction): nat {
    match a
    case AddUpdEntry(_, _) => 1
    case DeleteEntry(_, _) => 2
    case FlushTable(_) => 3
    case DeleteTable(_) => 4
    case UnknownAction(code, _) => code
  }

  function AddressOf(a: RecentAction): string {
    match a
    case AddUpdEntry(_, e) => e.srcIp
    case DeleteEntry(_, ip) => ip
    case _ => ""
  }

  predicate HasAddress(a: RecentAction) {
    a.AddUpdEntry? || a.DeleteEntry?
  }

  /** The address is one that std::stoi accepts. */
  predicate Encodable(a: RecentAction) {
    HasAddress(a) ==> AddressBytes(Split(AddressOf(a), '.')).Some?
  }

  function AddressField(a: RecentAction): seq<Byte>
    requires Encodable(a)
  {
    if HasAddress(a) then [1] + AddressBytes(Split(AddressOf(a), '.')).value else []
  }

  function EntryField(a: RecentAction): seq<Byte> {
    match a
    case AddUpdEntry(_, e) => [e.index % 256, e.ttl % 256, |e.stamps| % 256] + StampBytes(e.stamps)
    case _ => []
  }

  /** The name's length plus one, then the name without its terminator. */
  function NameField(name: string): (r: seq<Byte>)
    ensures |r| == |name| + 1
  {
    [(|name| + 1) % 256] + Bytes(name)
  }

  function RecentBody(a: RecentAction): seq<Byte>
    requires Encodable(a)
  {
    [ActionCode(a) % 256] + (AddressField(a) + (EntryField(a) + NameField(a.table)))
  }

  /** Byte i of a 32-bit id as http_parser writes it, shifted the wrong way. */
  function ShiftedByte(id: nat, i: nat): Byte {
    (id * Limit(i)) % 256
  }

  function IdField(id: nat): (r: seq<Byte>)
    ensures |r| == 4
  {
    [ShiftedByte(id, 0), ShiftedByte(id, 1), ShiftedByte(id, 2), ShiftedByte(id, 3)]
  }

  predicate HasSession(code: nat) {
    code == SESS_ADD || code == SESS_UPDATE || code == SESS_WRITE
  }

  /** One length byte and the characters. */
  function TextField(s: string): (r: seq<Byte>)
    ensures |r| == |s| + 1
  {
    [|s| % 256] + Bytes(s)
  }

  function SessionField(a: HttpAction): seq<Byte> {
    if HasSession(a.code) then TextField(a.content) + LittleEndian(a.lastAcc, 8) else []
  }

  function HttpBody(a: HttpAction): seq<Byte> {
    [a.code % 256] + (TextField(a.farm) +
      (if a.code == SYNC_REQUEST then []
       else IdField(a.listener) + (IdField(a.service) + (IdField(a.backend) + (TextField(a.key) + SessionField(a))))))
  }

  /** pkt_parser::serialize */
  function Encode(p: Packet): seq<Byte>
    requires p.Recent? ==> Encodable(p.action)
  {
    match p
    case Control(kind) => Header(kind, 0)
    case Recent(a) => Header(XT_RECENT_SYNC, 5 + |RecentBody(a)|) + RecentBody(a)
    case Http(a) => Header(HTTP_SYNC, 5 + |HttpBody(a)|) + HttpBody(a)
  }

  // ---------------------------------------------------------------------------
  // Deserialization

  /** A value read from the front of the input, with the input after it. */
  datatype Field<T> = Field(value: T, rest: seq<Byte>)

  function TakeBytes(b: seq<Byte>, n: nat): (r: Option<Field<seq<Byte>>>)
    ensures r.Some? ==> |r.value.rest| <= |b|
  {
    if n <= |b| then Some(Field(b[..n], b[n..])) else None
  }

  function TakeText(b: seq<Byte>): (r: Option<Field<string>>)
    ensures r.Some? ==> |r.value.rest| <= |b|
  {
    if b == [] then None
    else match TakeBytes(b[1..], b[0])
      case Some(f) => Some(Field(Chars(f.value), f.rest))
      case None => None
  }

  /** The table name: its stored length counts the terminator that is not sent. */
  function TakeName(b: seq<Byte>): (r: Option<Field<string>>)
    ensures r.Some? ==> |r.value.rest| <= |b|
  {
    if b == [] then None
    else match TakeBytes(b[1..], if b[0] == 0 then 0 else b[0] - 1)
      case Some(f) => Some(Field(Chars(f.value), f.rest))
      case None => None
  }

  function TakeEntry(ip: string, b: seq<Byte>): (r: Option<Field<UserEntry>>)
    ensures r.Some? ==> |r.value.rest| <= |b|
  {
    if |b| < 3 then None
    else
      var n: nat := b[2];
      if |b| - 3 < 8 * n then None
      else Some(Field(UserEntry(ip, b[1], b[0], ReadStamps(b[3..], n)), b[3 + 8 * n..]))
  }

  /** xt_recent_action_parser::deserialize on a body; None reads past the end of the buffer. */
  function TakeRecent(b: seq<Byte>): (r: Option<Field<RecentAction>>)
    ensures r.Some? ==> |r.value.rest| <= |b|
  {
    if b == [] then None
    else if b[0] == 1 || b[0] == 2 then
      if |b| < 6 then None
      else if b[0] == 2 then
        match TakeName(b[6..])
        case Some(f) => Some(Field(DeleteEntry(f.value, Dotted(b[2..6])), f.rest))
        case None => None
      else
        match TakeEntry(Dotted(b[2..6]), b[6..])
        case None => None
        case Some(e) =>
          match TakeName(e.rest)
          case Some(f) => Some(Field(AddUpdEntry(f.value, e.value), f.rest))
          case None => None
    else
      match TakeName(b[1..])
      case None => None
      case Some(f) =>
        Some(Field(if b[0] == 3 then FlushTable(f.value)
                   else if b[0] == 4 then DeleteTable(f.value)
                   else UnknownAction(b[0], f.value), f.rest))
  }

  /** The ids, the key and, for some actions, the content and time of a session. */
  function TakeSession(code: nat, farm: string, b: seq<Byte>): (r: Option<Field<HttpAction>>)
    ensures r.Some? ==> |r.value.rest| <= |b|
  {
    if |b| < 12 then None
    else
      var (l, s, k) := (FromLittleEndian(b[..4]), FromLittleEndian(b[4..8]), FromLittleEndian(b[8..12]));
      match TakeText(b[12..])
      case None => None
      case Some(key) =>
        if !HasSession(code) then Some(Field(HttpAction(code, farm, l, s, k, key.value, "", 0), key.rest))
        else match TakeText(key.rest)
          case None => None
          case Some(c) =>
            if |c.rest| < 8 then None
            else Some(Field(HttpAction(code, farm, l, s, k, key.value, c.value, FromLittleEndian(c.rest[..8])), c.rest[8..]))
  }

  /** http_parser::deserialize on a body. */
  function TakeHttp(b: seq<Byte>): (r: Option<Field<HttpAction>>)
    ensures r.Some? ==> |r.value.rest| <= |b|
  {
    if b == [] then None
    else match TakeText(b[1..])
      case None => None
      case Some(farm) =>
        if b[0] == SYNC_REQUEST then Some(Field(HttpAction(b[0], farm.value, 0, 0, 0, "", "", 0), farm.rest))
        else TakeSession(b[0], farm.value, farm.rest)
  }

  /** Overrun: the parser would read past the end of the buffer array. */
  datatype Parse = Incomplete | Parsed(packet: Packet, used: nat) | Overrun

  /** base_pkt_parser::deserialize's test on the first size bytes of the buffer. */
  predicate Complete(buffer: seq<Byte>, size: nat)
    requires size <= |buffer|
  {
    size >= 5 && buffer[3] + 256 * buffer[4] <= size
  }

  /** pkt_parser::deserialize: the header, then the parser of the packet's type. */
  function Decode(buffer: seq<Byte>, size: nat): Parse
    requires size <= |buffer|
  {
    if !Complete(buffer, size) || buffer[2] == XT_RECENT_TABLE then Incomplete
    else if buffer[2] == XT_RECENT_SYNC then
      match TakeRecent(buffer[5..])
      case Some(f) => Parsed(Recent(f.value), |buffer| - |f.rest|)
      case None => Overrun
    else if buffer[2] == HTTP_SYNC then
      match TakeHttp(buffer[5..])
      case Some(f) => Parsed(Http(f.value), |buffer| - |f.rest|)
      case None => Overrun
    else Parsed(Control(buffer[2]), 5)
  }

  // ---------------------------------------------------------------------------
  // Round trips

  lemma TakeBytesBack(b: seq<Byte>, rest: seq<Byte>)
    ensures TakeBytes(b + rest, |b|) == Some(Field(b, rest))
  {
    assert (b + rest)[..|b|] == b && (b + rest)[|b|..] == rest;
  }

  lemma TakeTextBack(s: string, rest: seq<Byte>)
    requires Narrow(s) && |s| < 256
    ensures TakeText(TextField(s) + rest) == Some(Field(s, rest))
  {
    assert (TextField(s) + rest)[1..] == Bytes(s) + rest;
    TakeBytesBack(Bytes(s), rest);
    CharsOfBytes(s);
  }

  lemma TakeNameBack(s: string, rest: seq<Byte>)
    requires Narrow(s) && |s| < 255
    ensures TakeName(NameField(s) + rest) == Some(Field(s, rest))
  {
    assert (NameField(s) + rest)[1..] == Bytes(s) + rest;
    TakeBytesBack(Bytes(s), rest);
    CharsOfBytes(s);
  }

  predicate SendableEntry(e: UserEntry) {
    && e.ttl < 256 && e.index < 256 && |e.stamps| < 256
    && (forall i :: 0 <= i < |e.stamps| ==> e.stamps[i] < WORD)
    && CanonicalAddress(e.srcIp)
  }

  predicate CanonicalAddress(ip: string) {
    ParseIPv4(ip).Some? && Dotted(ParseIPv4(ip).value) == ip
  }

  /** Fields within their byte widths and canonical IPv4 addresses. */
  predicate Sendable(p: Packet) {
    match p
    case Control(kind) => kind < 256 && kind != XT_RECENT_SYNC && kind != XT_RECENT_TABLE && kind != HTTP_SYNC
    case Recent(a) =>
      && Narrow(a.table) && |a.table| < 255
      && (match a
          case AddUpdEntry(_, e) => SendableEntry(e)
          case DeleteEntry(_, ip) => CanonicalAddress(ip)
          case UnknownAction(code, _) => 5 <= code < 256 || code == 0
          case _ => true)
    case Http(a) =>
      && a.code < 256 && a.lastAcc < WORD
      && Narrow(a.farm) && Narrow(a.key) && Narrow(a.content)
      && |a.farm| < 256 && |a.key| < 256 && |a.content| < 256
  }

  /** What arrives: ids modulo 256, and only the fields the action carries. */
  function OnWire(p: Packet): Packet {
    match p
    case Http(a) =>
      if a.code == SYNC_REQUEST then Http(HttpAction(a.code, a.farm, 0, 0, 0, "", "", 0))
      else Http(HttpAction(a.code, a.farm, a.listener % 256, a.service % 256, a.backend % 256, a.key,
                           if HasSession(a.code) then a.content else "", if HasSession(a.code) then a.lastAcc else 0))
    case _ => p
  }

  lemma SendableEncodes(p: Packet)
    requires Sendable(p)
    ensures p.Recent? ==> Encodable(p.action)
    ensures p.Recent? && HasAddress(p.action) ==>
      && AddressBytes(Split(AddressOf(p.action), '.')) == ParseIPv4(AddressOf(p.action))
  {
    if p.Recent? && HasAddress(p.action) {
      AddressRoundTrip(ParseIPv4(AddressOf(p.action)).value);
    }
  }

  lemma TakeEntryBack(e: UserEntry, rest: seq<Byte>)
    requires SendableEntry(e)
    ensures TakeEntry(e.srcIp, EntryField(AddUpdEntry("", e)) + rest) == Some(Field(e, rest))
  {
    hide CanonicalAddress, StampBytes, ReadStamps;
    var head: seq<Byte> := [e.index, e.ttl, |e.stamps|];
    var b := EntryField(AddUpdEntry("", e)) + rest;
    assert b == head + (StampBytes(e.stamps) + rest);
    Skip(head, StampBytes(e.stamps) + rest);
    StampsRoundTrip(e.stamps, rest);
    assert b == (head + StampBytes(e.stamps)) + rest;
    Skip(head + StampBytes(e.stamps), rest);
  }

  /** The address part of a body: action, family and four bytes. */
  lemma SplitAddress(code: Byte, ip: seq<Byte>, tail: seq<Byte>)
    requires |ip| == 4
    ensures var b := [code] + ([1] + ip + tail); b[0] == code && b[2..6] == ip && b[6..] == tail
  {
    var b := [code] + ([1] + ip + tail);
    assert b == [code, 1] + (ip + tail);
    assert b == ([code, 1] + ip) + tail;
    Skip([code, 1] + ip, tail);
  }

  lemma Regroup(code: Byte, address: seq<Byte>, entry: seq<Byte>, name: seq<Byte>, rest: seq<Byte>)
    requires |address| == 5 && address[0] == 1
    ensures var b := [code] + (address + (entry + name)) + rest;
            |b| >= 6 && b[0] == code && b[2..6] == address[1..] && b[6..] == entry + (name + rest)
  {
    var tail := entry + (name + rest);
    assert address == [1] + address[1..];
    SplitAddress(code, address[1..], tail);
    assert [code] + (address + (entry + name)) + rest == [code] + ([1] + address[1..] + tail);
  }

  lemma TakeUpdate(b: seq<Byte>, e: Field<UserEntry>, name: Field<string>)
    requires |b| >= 6 && b[0] == 1
    requires TakeEntry(Dotted(b[2..6]), b[6..]) == Some(e) && TakeName(e.rest) == Some(name)
    ensures TakeRecent(b) == Some(Field(AddUpdEntry(name.value, e.value), name.rest))
  {
    hide TakeEntry, TakeName, Dotted;
  }

  lemma TakeDelete(b: seq<Byte>, name: Field<string>)
    requires |b| >= 6 && b[0] == 2 && TakeName(b[6..]) == Some(name)
    ensures TakeRecent(b) == Some(Field(DeleteEntry(name.value, Dotted(b[2..6])), name.rest))
  {
    hide TakeName, Dotted;
  }

  /** Where the parts of a body with an address lie. */
  lemma AddressedBody(a: RecentAction, rest: seq<Byte>, b: seq<Byte>)
    requires Encodable(a) && |AddressField(a)| == 5 && AddressField(a)[0] == 1 && ActionCode(a) < 256
    requires b == RecentBody(a) + rest
    ensures |b| >= 6 && b[0] == ActionCode(a) && b[2..6] == AddressField(a)[1..]
    ensures b[6..] == EntryField(a) + (NameField(a.table) + rest)
  {
    hide Encodable, AddressField, EntryField, NameField;
    Regroup(ActionCode(a), AddressField(a), EntryField(a), NameField(a.table), rest);
  }

  lemma TakeUpdateBack(table: string, e: UserEntry, rest: seq<Byte>)
    requires Sendable(Recent(AddUpdEntry(table, e)))
    ensures var a := AddUpdEntry(table, e); Encodable(a) && TakeRecent(RecentBody(a) + rest) == Some(Field(a, rest))
  {
    var a := AddUpdEntry(table, e);
    var name := NameField(table) + rest;
    TakeNameBack(table, rest);
    TailBack(a, name);
    AddressBack(a);
    AddressedBody(a, rest, RecentBody(a) + rest);
    hide Sendable, Encodable, NameField, EntryField, TakeName, TakeEntry, TakeRecent, RecentBody, Dotted;
    TakeUpdate(RecentBody(a) + rest, Field(e, name), Field(table, rest));
  }

  lemma TakeDeleteBack(table: string, ip: string, rest: seq<Byte>)
    requires Sendable(Recent(DeleteEntry(table, ip)))
    ensures var a := DeleteEntry(table, ip); Encodable(a) && TakeRecent(RecentBody(a) + rest) == Some(Field(a, rest))
  {
    var a := DeleteEntry(table, ip);
    TakeNameBack(table, rest);
    EmptyEntryField(a);
    AddressBack(a);
    AddressedBody(a, rest, RecentBody(a) + rest);
    hide Sendable, Encodable, NameField, EntryField, TakeName, TakeRecent, RecentBody, Dotted;
    assert [] + (NameField(table) + rest) == NameField(table) + rest;
    TakeDelete(RecentBody(a) + rest, Field(table, rest));
  }

  lemma TakeOtherBack(a: RecentAction, rest: seq<Byte>)
    requires Sendable(Recent(a)) && !HasAddress(a)
    ensures TakeRecent(RecentBody(a) + rest) == Some(Field(a, rest))
  {
    EmptyEntryField(a);
    hide NameField, EntryField, TakeName, TakeEntry;
    var name := NameField(a.table) + rest;
    TakeNameBack(a.table, rest);
    assert RecentBody(a) + rest == [ActionCode(a)] + name;
    Skip([ActionCode(a)], name);
  }

  lemma TakeRecentBack(a: RecentAction, rest: seq<Byte>)
    requires Sendable(Recent(a))
    ensures Encodable(a) && TakeRecent(RecentBody(a) + rest) == Some(Field(a, rest))
  {
    hide Sendable, RecentBody, TakeRecent;
    match a
    case AddUpdEntry(table, e) => TakeUpdateBack(table, e, rest);
    case DeleteEntry(table, ip) => TakeDeleteBack(table, ip, rest);
    case _ => TakeOtherBack(a, rest);
  }

  lemma AddressBack(a: RecentAction)
    requires HasAddress(a) && CanonicalAddress(AddressOf(a))
    ensures Encodable(a) && |AddressField(a)| == 5 && AddressField(a)[0] == 1
    ensures IsIPv4(AddressField(a)[1..]) && Dotted(AddressField(a)[1..]) == AddressOf(a)
  {
    AddressRoundTrip(ParseIPv4(AddressOf(a)).value);
  }

  lemma EmptyEntryField(a: RecentAction)
    ensures !a.AddUpdEntry? ==> EntryField(a) == []
  {
  }

  lemma TailBack(a: RecentAction, name: seq<Byte>)
    requires Sendable(Recent(a)) && HasAddress(a)
    ensures match a
            case AddUpdEntry(_, e) => TakeEntry(e.srcIp, EntryField(a) + name) == Some(Field(e, name))
            case _ => EntryField(a) + name == name
  {
    hide CanonicalAddress;
    if a.AddUpdEntry? {
      TakeEntryBack(a.entry, name);
    }
  }

  lemma IdFieldBack(id: nat)
    ensures IdField(id) == [id % 256, 0, 0, 0] && FromLittleEndian(IdField(id)) == id % 256
  {
    assert Limit(1) == 256 && Limit(2) == 256 * 256 && Limit(3) == 256 * 256 * 256;
    Division.Unique(id * 256, 256, id, 0);
    Division.Unique(id * (256 * 256), 256, id * 256, 0);
    Division.Unique(id * (256 * 256 * 256), 256, id * 256 * 256, 0);
    var b := IdField(id);
    assert b[1..] == [0, 0, 0] && b[1..][1..] == [0, 0] && b[1..][1..][1..] == [0] && b[1..][1..][1..][1..] == [];
    assert FromLittleEndian([0]) == 0 by { assert [0][1..] == []; }
    assert FromLittleEndian([0, 0]) == 0 by { assert [0, 0][1..] == [0]; }
    assert FromLittleEndian([0, 0, 0]) == 0 by { assert [0, 0, 0][1..] == [0, 0]; }
  }

  lemma Cut(a: seq<Byte>, b: seq<Byte>, c: seq<Byte>, d: seq<Byte>)
    requires |a| == |b| == |c| == 4
    ensures var s := a + (b + (c + d)); s[..4] == a && s[4..8] == b && s[8..12] == c && s[12..] == d
  {
    var s := a + (b + (c + d));
    assert s[12..] == d;
  }

  lemma TakeSessionBack(a: HttpAction, rest: seq<Byte>)
    requires Sendable(Http(a)) && a.code != SYNC_REQUEST
    ensures TakeSession(a.code, a.farm,
                        IdField(a.listener) + (IdField(a.service) + (IdField(a.backend) + (TextField(a.key) + (SessionField(a) + rest)))))
            == Some(Field(OnWire(Http(a)).request, rest))
  {
    IdFieldBack(a.listener);
    IdFieldBack(a.service);
    IdFieldBack(a.backend);
    hide IdField, FromLittleEndian, LittleEndian, TextField, TakeText;
    var tail := TextField(a.key) + (SessionField(a) + rest);
    Cut(IdField(a.listener), IdField(a.service), IdField(a.backend), tail);
    TakeTextBack(a.key, SessionField(a) + rest);
    if HasSession(a.code) {
      var time := LittleEndian(a.lastAcc, 8) + rest;
      assert SessionField(a) + rest == TextField(a.content) + time;
      TakeTextBack(a.content, time);
      Skip(LittleEndian(a.lastAcc, 8), rest);
      EightBytes();
      LittleEndianRoundTrip(a.lastAcc, 8);
    } else {
      assert SessionField(a) + rest == rest;
    }
  }

  lemma TakeHttpBack(a: HttpAction, rest: seq<Byte>)
    requires Sendable(Http(a))
    ensures TakeHttp(HttpBody(a) + rest) == Some(Field(OnWire(Http(a)).request, rest))
  {
    hide IdField, TextField, TakeText, TakeSession, SessionField;
    if a.code == SYNC_REQUEST {
      assert HttpBody(a) + rest == [a.code] + (TextField(a.farm) + rest);
      Skip([a.code], TextField(a.farm) + rest);
      TakeTextBack(a.farm, rest);
    } else {
      var session := IdField(a.listener) + (IdField(a.service) + (IdField(a.backend) + (TextField(a.key) + (SessionField(a) + rest))));
      assert HttpBody(a) + rest == [a.code] + (TextField(a.farm) + session);
      Skip([a.code], TextField(a.farm) + session);
      TakeTextBack(a.farm, session);
      TakeSessionBack(a, rest);
    }
  }

  const LARGEST := 2309

  lemma EncodedSize(p: Packet)
    requires Sendable(p)
    ensures p.Recent? ==> Encodable(p.action)
    ensures 5 <= |Encode(p)| <= LARGEST
  {
    SendableEncodes(p);
  }

  lemma HeaderBytes(kind: nat, length: nat, body: seq<Byte>, rest: seq<Byte>, size: nat)
    requires kind < 256 && length < 0x1_0000
    ensures var b := Header(kind, length) + body + rest;
            && b[2] == kind && b[5..] == body + rest
            && (5 <= size <= |b| ==> (Complete(b, size) <==> length <= size))
  {
    var b := Header(kind, length) + body + rest;
    assert b == Header(kind, length) + (body + rest);
    Skip(Header(kind, length), body + rest);
  }

  function KindOf(p: Packet): nat {
    if p.Control? then p.kind else if p.Recent? then XT_RECENT_SYNC else HTTP_SYNC
  }

  function BodyOf(p: Packet): seq<Byte>
    requires p.Recent? ==> Encodable(p.action)
  {
    if p.Control? then [] else if p.Recent? then RecentBody(p.action) else HttpBody(p.request)
  }

  /** The length the header announces: nothing for packets without a body. */
  function Announced(p: Packet): nat
    requires p.Recent? ==> Encodable(p.action)
  {
    if p.Control? then 0 else 5 + |BodyOf(p)|
  }

  lemma ControlParts(kind: nat)
    ensures KindOf(Control(kind)) == kind && Announced(Control(kind)) == 0 && BodyOf(Control(kind)) == []
    ensures Encode(Control(kind)) == Header(kind, 0) + [] && |Encode(Control(kind))| == 5
  {
  }

  lemma RecentParts(a: RecentAction)
    requires Encodable(a)
    ensures KindOf(Recent(a)) == XT_RECENT_SYNC && BodyOf(Recent(a)) == RecentBody(a) && Announced(Recent(a)) == 5 + |RecentBody(a)|
    ensures Encode(Recent(a)) == Header(XT_RECENT_SYNC, 5 + |RecentBody(a)|) + RecentBody(a)
  {
    hide RecentBody, Encodable;
  }

  lemma HttpParts(a: HttpAction)
    ensures KindOf(Http(a)) == HTTP_SYNC && BodyOf(Http(a)) == HttpBody(a) && Announced(Http(a)) == 5 + |HttpBody(a)|
    ensures Encode(Http(a)) == Header(HTTP_SYNC, 5 + |HttpBody(a)|) + HttpBody(a)
  {
    hide HttpBody;
  }

  lemma PartsOf(p: Packet)
    requires Sendable(p)
    ensures p.Recent? ==> Encodable(p.action)
    ensures Encode(p) == Header(KindOf(p), Announced(p)) + BodyOf(p) && KindOf(p) < 256 && Announced(p) < 0x1_0000 && |Encode(p)| >= 5
    ensures p.Control? ==> KindOf(p) == p.kind && Announced(p) == 0 && |Encode(p)| == 5
    ensures p.Recent? ==> KindOf(p) == XT_RECENT_SYNC && BodyOf(p) == RecentBody(p.action) && Announced(p) == |Encode(p)|
    ensures p.Http? ==> KindOf(p) == HTTP_SYNC && BodyOf(p) == HttpBody(p.request) && Announced(p) == |Encode(p)|
  {
    assert p.Control? ==> p.kind < 256;
    hide *;
    EncodedSize(p);
    match p
    case Control(kind) => ControlParts(kind);
    case Recent(a) => RecentParts(a);
    case Http(a) => HttpParts(a);
  }

  /** What a receiver sees of an encoding, whatever follows it. */
  lemma HeaderBack(p: Packet, rest: seq<Byte>, size: nat)
    requires Sendable(p)
    ensures p.Recent? ==> Encodable(p.action)
    ensures var b := Encode(p) + rest;
            && (5 <= size <= |b| ==> (Complete(b, size) <==> p.Control? || |Encode(p)| <= size))
            && (p.Control? ==> b[2] == p.kind && |Encode(p)| == 5)
            && (p.Recent? ==> b[2] == XT_RECENT_SYNC && b[5..] == RecentBody(p.action) + rest)
            && (p.Http? ==> b[2] == HTTP_SYNC && b[5..] == HttpBody(p.request) + rest)
  {
    hide *;
    PartsOf(p);
    HeaderBytes(KindOf(p), Announced(p), BodyOf(p), rest, size);
  }

  lemma DecodeBody(b: seq<Byte>, size: nat)
    requires size <= |b| && Complete(b, size)
    ensures b[2] == XT_RECENT_SYNC && TakeRecent(b[5..]).Some? ==>
              Decode(b, size) == Parsed(Recent(TakeRecent(b[5..]).value.value), |b| - |TakeRecent(b[5..]).value.rest|)
    ensures b[2] == HTTP_SYNC && TakeHttp(b[5..]).Some? ==>
              Decode(b, size) == Parsed(Http(TakeHttp(b[5..]).value.value), |b| - |TakeHttp(b[5..]).value.rest|)
    ensures b[2] !in {XT_RECENT_SYNC, HTTP_SYNC, XT_RECENT_TABLE} ==> Decode(b, size) == Parsed(Control(b[2]), 5)
  {
    hide TakeRecent, TakeHttp;
  }

  /** Decoding an encoded packet, whatever follows it, gives the packet back as far as it is sent,
      and consumes exactly its encoding. */
  lemma CodecRoundTrip(p: Packet, rest: seq<Byte>, size: nat)
    requires Sendable(p)
    ensures p.Recent? ==> Encodable(p.action)
    ensures |Encode(p)| <= size <= |Encode(p)| + |rest| ==>
      Decode(Encode(p) + rest, size) == Parsed(OnWire(p), |Encode(p)|)
  {
    EncodedSize(p);
    HeaderBack(p, rest, size);
    hide RecentBody, HttpBody, TakeRecent, TakeHttp, Complete, Header, Decode, Encode;
    var b := Encode(p) + rest;
    if |Encode(p)| <= size <= |b| {
      DecodeBody(b, size);
      match p
      case Control(_) =>
      case Recent(a) => TakeRecentBack(a, rest);
      case Http(a) => TakeHttpBack(a, rest);
    }
  }

  /** A strict prefix of an encoding is not yet a packet, whatever stale bytes lie behind it. */
  lemma PrefixIsIncomplete(p: Packet, buffer: seq<Byte>, size: nat)
    requires Sendable(p)
    ensures p.Recent? ==> Encodable(p.action)
    ensures size < |Encode(p)| && size <= |buffer| && buffer[..size] == Encode(p)[..size] ==> Decode(buffer, size) == Incomplete
  {
    EncodedSize(p);
    HeaderBack(p, [], size);
    hide Sendable, Encode;
    var e := Encode(p);
    assert e + [] == e;
    if 5 <= size < |e| && size <= |buffer| && buffer[..size] == e[..size] {
      assert buffer[3] == e[..size][3] == e[3] && buffer[4] == e[..size][4] == e[4];
    }
  }
}
