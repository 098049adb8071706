// The packet serializers and parsers as they run: a cursor over a byte array.
module Codec {
  import opened Seqs
  import opened Text
  import opened XtRecentProc
  import opened Messages
  import opened Wire

  // ---------------------------------------------------------------------------
  // Serializers: out_buffer[(*out_size)++] = ...

  /** s with bytes written over it from pos. */
  function Splice(s: seq<Byte>, pos: nat, bytes: seq<Byte>): (r: seq<Byte>)
    requires pos + |bytes| <= |s|
    ensures |r| == |s|
  {
    s[..pos] + bytes + s[pos + |bytes|..]
  }

  lemma SpliceOn(s: seq<Byte>, pos: nat, a: seq<Byte>, b: seq<Byte>)
    requires pos + |a| + |b| <= |s|
    ensures Splice(Splice(s, pos, a), pos + |a|, b) == Splice(s, pos, a + b)
  {
  }

  lemma SpliceNothing(s: seq<Byte>, pos: nat)
    requires pos <= |s|
    ensures Splice(s, pos, []) == s
  {
  }

  method PutByte(out: array<Byte>, pos: nat, b: Byte) returns (next: nat)
    requires pos < out.Length
    modifies out
    ensures next == pos + 1 && out[..] == Splice(old(out[..]), pos, [b])
  {
    out[pos] := b;
    next := pos + 1;
  }

  method PutBytes(out: array<Byte>, pos: nat, bytes: seq<Byte>) returns (next: nat)
    requires pos + |bytes| <= out.Length
    modifies out
    ensures next == pos + |bytes| && out[..] == Splice(old(out[..]), pos, bytes)
  {
    ghost var was := out[..];
    next := pos;
    SpliceNothing(was, pos);
    for i := 0 to |bytes|
      invariant next == pos + i
      invariant out[..] == Splice(was, pos, bytes[..i])
    {
      SpliceOn(was, pos, bytes[..i], [bytes[i]]);
      assert bytes[..i + 1] == bytes[..i] + [bytes[i]];
      next := PutByte(out, next, bytes[i]);
    }
    assert bytes[..|bytes|] == bytes;
  }

  /** Eight bytes of a stamp, shifting it right after each. */
  method PutLong(out: array<Byte>, pos: nat, n: nat) returns (next: nat)
    requires pos + 8 <= out.Length
    modifies out
    ensures next == pos + 8 && out[..] == Splice(old(out[..]), pos, LittleEndian(n, 8))
  {
    ghost var was := out[..];
    ghost var done: seq<Byte> := [];
    var tmp := n;
    next := pos;
    SpliceNothing(was, pos);
    for i := 0 to 8
      invariant next == pos + i && |done| == i
      invariant done + LittleEndian(tmp, 8 - i) == LittleEndian(n, 8)
      invariant out[..] == Splice(was, pos, done)
    {
      assert done + LittleEndian(tmp, 8 - i) == (done + [tmp % 256]) + LittleEndian(tmp / 256, 7 - i);
      SpliceOn(was, pos, done, [tmp % 256]);
      next := PutByte(out, next, tmp % 256);
      done := done + [tmp % 256];
      tmp := tmp / 256;
    }
    assert done + [] == done;
  }

  lemma StampBytesNext(stamps: seq<nat>, i: nat)
    requires i < |stamps|
    ensures StampBytes(stamps[..i + 1]) == StampBytes(stamps[..i]) + LittleEndian(stamps[i], 8)
  {
    if i == 0 {
      assert stamps[..1] == [stamps[0]];
      assert [stamps[0]][1..] == [];
    } else {
      StampBytesNext(stamps[1..], i - 1);
      assert stamps[..i + 1][1..] == stamps[1..][..i] && stamps[..i][1..] == stamps[1..][..i - 1];
    }
  }

  method PutStamps(out: array<Byte>, pos: nat, stamps: seq<nat>) returns (next: nat)
    requires pos + 8 * |stamps| <= out.Length
    modifies out
    ensures next == pos + 8 * |stamps| && out[..] == Splice(old(out[..]), pos, StampBytes(stamps))
  {
    ghost var was := out[..];
    next := pos;
    SpliceNothing(was, pos);
    for i := 0 to |stamps|
      invariant next == pos + 8 * i
      invariant out[..] == Splice(was, pos, StampBytes(stamps[..i]))
    {
      StampBytesNext(stamps, i);
      SpliceOn(was, pos, StampBytes(stamps[..i]), LittleEndian(stamps[i], 8));
      next := PutLong(out, next, stamps[i]);
    }
    assert stamps[..|stamps|] == stamps;
  }

  /** Four bytes of an id, each shifted left: out_buffer[...] = (id << (8 * i)). */
  method PutId(out: array<Byte>, pos: nat, id: nat) returns (next: nat)
    requires pos + 4 <= out.Length
    modifies out
    ensures next == pos + 4 && out[..] == Splice(old(out[..]), pos, IdField(id))
  {
    hide IdField, ShiftedByte, Splice;
    ghost var was := out[..];
    next := pos;
    SpliceNothing(was, pos);
    for i := 0 to 4
      invariant next == pos + i
      invariant out[..] == Splice(was, pos, IdField(id)[..i])
    {
      SpliceOn(was, pos, IdField(id)[..i], [ShiftedByte(id, i)]);
      IdFieldNext(id, i);
      next := PutByte(out, next, ShiftedByte(id, i));
    }
    assert IdField(id)[..4] == IdField(id);
  }

  lemma IdFieldNext(id: nat, i: nat)
    requires i < 4
    ensures IdField(id)[..i + 1] == IdField(id)[..i] + [ShiftedByte(id, i)]
  {
    hide ShiftedByte;
  }

  method PutText(out: array<Byte>, pos: nat, s: string) returns (next: nat)
    requires pos + 1 + |s| <= out.Length
    modifies out
    ensures next == pos + 1 + |s| && out[..] == Splice(old(out[..]), pos, TextField(s))
  {
    ghost var was := out[..];
    next := PutByte(out, pos, |s| % 256);
    SpliceOn(was, pos, [|s| % 256], Bytes(s));
    next := PutBytes(out, next, Bytes(s));
  }

  /** base_pkt_parser::serialize */
  method PutHeader(out: array<Byte>, kind: nat, length: nat) returns (size: nat)
    requires out.Length >= 5
    modifies out
    ensures size == 5 && out[..] == Splice(old(out[..]), 0, Header(kind, length))
  {
    size := PutBytes(out, 0, Header(kind, length));
  }

  /** get_ip_address_v4: one byte for each dotted part, until one is no number. */
  method GetIpAddressV4(ip: string) returns (r: Option<seq<Byte>>)
    ensures r == AddressBytes(Split(ip, '.'))
  {
    var parts := Split(ip, '.');
    assert parts[0..] == parts && (forall rest: seq<Byte> :: [] + rest == rest);
    var bytes: seq<Byte> := [];
    for i := 0 to |parts|
      invariant AddressBytes(parts) == match AddressBytes(parts[i..]) case Some(rest) => Some(bytes + rest) case None => None
    {
      assert parts[i..][1..] == parts[i + 1..];
      match Stoul(parts[i])
      case None => return None;
      case Some(n) =>
        assert forall rest :: bytes + ([n % 256] + rest) == (bytes + [n % 256]) + rest;
        bytes := bytes + [n % 256];
    }
    assert parts[|parts|..] == [] && bytes + [] == bytes;
    r := Some(bytes);
  }

  /** Index, ttl, number of stamps and the stamps, for an update only. */
  method PutEntry(out: array<Byte>, pos: nat, a: RecentAction) returns (next: nat)
    requires pos + |EntryField(a)| <= out.Length
    modifies out
    ensures next == pos + |EntryField(a)| && out[..] == Splice(old(out[..]), pos, EntryField(a))
  {
    next := pos;
    SpliceNothing(out[..], pos);
    if a.AddUpdEntry? {
      var e := a.entry;
      var head: seq<Byte> := [e.index % 256, e.ttl % 256, |e.stamps| % 256];
      SpliceOn(out[..], pos, head, StampBytes(e.stamps));
      next := PutBytes(out, pos, head);
      next := PutStamps(out, next, e.stamps);
    }
  }

  method PutAddress(out: array<Byte>, pos: nat, a: RecentAction) returns (next: nat)
    requires Encodable(a) && pos + |AddressField(a)| <= out.Length
    modifies out
    ensures next == pos + |AddressField(a)| && out[..] == Splice(old(out[..]), pos, AddressField(a))
  {
    next := pos;
    SpliceNothing(out[..], pos);
    if HasAddress(a) {
      var ip := GetIpAddressV4(AddressOf(a));
      SpliceOn(out[..], pos, [1], ip.value);
      next := PutByte(out, next, 1);
      next := PutBytes(out, next, ip.value);
    }
  }

  /** The table name with its terminator. */
  method PutName(out: array<Byte>, pos: nat, name: string) returns (next: nat)
    requires pos + 2 + |name| <= out.Length
    modifies out
    ensures next == pos + 2 + |name| && out[..] == Splice(old(out[..]), pos, NameField(name) + [0])
  {
    ghost var was := out[..];
    next := PutByte(out, pos, (|name| + 1) % 256);
    SpliceOn(was, pos, [(|name| + 1) % 256], Bytes(name));
    next := PutBytes(out, next, Bytes(name));
    SpliceOn(was, pos, NameField(name), [0]);
    next := PutByte(out, next, 0);
  }

  method PutTarget(out: array<Byte>, pos: nat, a: RecentAction) returns (next: nat)
    requires Encodable(a) && pos + 1 + |AddressField(a)| <= out.Length
    modifies out
    ensures next == pos + 1 + |AddressField(a)| && out[..] == Splice(old(out[..]), pos, [ActionCode(a) % 256] + AddressField(a))
  {
    hide Encodable, AddressField, Splice;
    SpliceOn(out[..], pos, [ActionCode(a) % 256], AddressField(a));
    next := PutByte(out, pos, ActionCode(a) % 256);
    next := PutAddress(out, next, a);
  }

  method PutEntryAndName(out: array<Byte>, pos: nat, a: RecentAction) returns (next: nat)
    requires pos + |EntryField(a)| + 2 + |a.table| <= out.Length
    modifies out
    ensures next == pos + |EntryField(a)| + 2 + |a.table|
    ensures out[..] == Splice(old(out[..]), pos, EntryField(a) + (NameField(a.table) + [0]))
  {
    hide EntryField, NameField, Splice;
    SpliceOn(out[..], pos, EntryField(a), NameField(a.table) + [0]);
    next := PutEntry(out, pos, a);
    next := PutName(out, next, a.table);
  }

  lemma RecentBodyParts(a: RecentAction)
    requires Encodable(a)
    ensures |RecentBody(a)| == 1 + |AddressField(a)| + |EntryField(a)| + |a.table| + 1
    ensures [ActionCode(a) % 256] + AddressField(a) + (EntryField(a) + (NameField(a.table) + [0])) == RecentBody(a) + [0]
  {
    hide AddressField, EntryField, Encodable, Bytes;
  }

  /** The body: action, address, entry, and the name with its terminator. */
  method PutRecentBody(out: array<Byte>, pos: nat, a: RecentAction) returns (next: nat)
    requires Encodable(a) && pos + |RecentBody(a)| < out.Length
    modifies out
    ensures next == pos + |RecentBody(a)| + 1
    ensures out[..] == Splice(old(out[..]), pos, RecentBody(a) + [0])
  {
    hide *;
    RecentBodyParts(a);
    ghost var front, back := [ActionCode(a) % 256] + AddressField(a), EntryField(a) + (NameField(a.table) + [0]);
    ghost var was := out[..];
    next := PutTarget(out, pos, a);
    next := PutEntryAndName(out, next, a);
    SpliceOn(was, pos, front, back);
  }

  /** Storing the length over bytes 3 and 4 of the header completes the packet. */
  lemma Patched(s: seq<Byte>, kind: nat, stale: nat, body: seq<Byte>, extra: seq<Byte>)
    requires 5 + |body| + |extra| <= |s|
    ensures var size := 5 + |body|;
            var t := Splice(Splice(s, 0, Header(kind, stale)), 5, body + extra)[3 := size % 256][4 := (size / 256) % 256];
            t[..size] == Header(kind, size) + body && t[size..] == extra + s[size + |extra|..]
  {
  }

  /** The receiver-visible effect of both serializers: the packet, and nothing behind what they touch. */
  method PatchLength(out: array<Byte>, size: nat)
    requires 5 <= size <= out.Length
    modifies out
    ensures out[..] == old(out[..])[3 := size % 256][4 := (size / 256) % 256]
  {
    out[3] := size % 256;
    out[4] := (size / 256) % 256;
  }

  /** The end of both serializers: the length is stored over the header's. */
  method Finish(out: array<Byte>, size: nat, ghost was: seq<Byte>, ghost kind: nat, ghost stale: nat, ghost body: seq<Byte>, ghost extra: seq<Byte>)
    requires size == 5 + |body| && size + |extra| <= |was|
    requires out[..] == Splice(Splice(was, 0, Header(kind, stale)), 5, body + extra)
    modifies out
    ensures out[..size] == Header(kind, size) + body && out[size..] == extra + was[size + |extra|..]
  {
    hide *;
    PatchLength(out, size);
    Patched(was, kind, stale, body, extra);
    ghost var done := out[..];
    assert out[..size] == done[..size] && out[size..] == done[size..];
  }

  method WriteRecent(a: RecentAction, stale: nat, out: array<Byte>) returns (size: nat)
    requires Encodable(a) && 5 + |RecentBody(a)| < out.Length
    modifies out
    ensures size == |Encode(Recent(a))| && out[..size] == Encode(Recent(a)) && out[size..] == [0] + old(out[size + 1..])
  {
    hide *;
    RecentParts(a);
    ghost var was := out[..];
    size := PutHeader(out, XT_RECENT_SYNC, stale);
    size := PutRecentBody(out, size, a);
    size := size - 1;
    Finish(out, size, was, XT_RECENT_SYNC, stale, RecentBody(a), [0]);
    assert was[size + 1..] == old(out[size + 1..]);
  }

  /** xt_recent_action_parser::serialize; None where the address makes std::stoi throw.
      stale is whatever the packet's own length field held. */
  method SerializeRecent(a: RecentAction, stale: nat, out: array<Byte>) returns (size: Option<nat>)
    requires Encodable(a) ==> 5 + |RecentBody(a)| < out.Length
    modifies out
    ensures size.Some? <==> Encodable(a)
    ensures size.Some? ==> size.value == |Encode(Recent(a))| && out[..size.value] == Encode(Recent(a))
    ensures size.Some? ==> out[size.value..] == [0] + old(out[size.value + 1..])
  {
    hide *;
    if !Encodable(a) {
      return None;
    }
    var n := WriteRecent(a, stale, out);
    size := Some(n);
  }

  method PutSession(out: array<Byte>, pos: nat, a: HttpAction) returns (next: nat)
    requires pos + |SessionField(a)| <= out.Length
    modifies out
    ensures next == pos + |SessionField(a)| && out[..] == Splice(old(out[..]), pos, SessionField(a))
  {
    next := pos;
    SpliceNothing(out[..], pos);
    if HasSession(a.code) {
      SpliceOn(out[..], pos, TextField(a.content), LittleEndian(a.lastAcc, 8));
      next := PutText(out, next, a.content);
      next := PutLong(out, next, a.lastAcc);
    }
  }

  method PutIds(out: array<Byte>, pos: nat, a: HttpAction) returns (next: nat)
    requires pos + 12 <= out.Length
    modifies out
    ensures next == pos + 12
    ensures out[..] == Splice(old(out[..]), pos, IdField(a.listener) + IdField(a.service) + IdField(a.backend))
  {
    SpliceOn(out[..], pos, IdField(a.listener), IdField(a.service));
    SpliceOn(out[..], pos, IdField(a.listener) + IdField(a.service), IdField(a.backend));
    hide Splice, IdField;
    next := PutId(out, pos, a.listener);
    next := PutId(out, next, a.service);
    next := PutId(out, next, a.backend);
  }

  method PutKeyAndSession(out: array<Byte>, pos: nat, a: HttpAction) returns (next: nat)
    requires pos + 1 + |a.key| + |SessionField(a)| <= out.Length
    modifies out
    ensures next == pos + 1 + |a.key| + |SessionField(a)|
    ensures out[..] == Splice(old(out[..]), pos, TextField(a.key) + SessionField(a))
  {
    SpliceOn(out[..], pos, TextField(a.key), SessionField(a));
    hide Splice, SessionField;
    next := PutText(out, pos, a.key);
    next := PutSession(out, next, a);
  }

  lemma HttpBodyParts(a: HttpAction)
    ensures a.code == SYNC_REQUEST ==> HttpBody(a) == [a.code % 256] + TextField(a.farm)
    ensures a.code != SYNC_REQUEST ==>
              && |HttpBody(a)| == 1 + (1 + |a.farm|) + 12 + (1 + |a.key| + |SessionField(a)|)
              && HttpBody(a) == [a.code % 256] + TextField(a.farm)
                                + ((IdField(a.listener) + IdField(a.service) + IdField(a.backend)) + (TextField(a.key) + SessionField(a)))
  {
    hide SessionField, Bytes, ShiftedByte;
    if a.code == SYNC_REQUEST {
      assert TextField(a.farm) + [] == TextField(a.farm);
    }
  }

  method PutHttpBody(out: array<Byte>, pos: nat, a: HttpAction) returns (next: nat)
    requires pos + |HttpBody(a)| <= out.Length
    modifies out
    ensures next == pos + |HttpBody(a)|
    ensures out[..] == Splice(old(out[..]), pos, HttpBody(a))
  {
    HttpBodyParts(a);
    hide Splice, HttpBody, SessionField, IdField;
    ghost var front := [a.code % 256] + TextField(a.farm);
    ghost var ids := IdField(a.listener) + IdField(a.service) + IdField(a.backend);
    ghost var was := out[..];
    SpliceOn(was, pos, [a.code % 256], TextField(a.farm));
    next := PutByte(out, pos, a.code % 256);
    next := PutText(out, next, a.farm);
    if a.code != SYNC_REQUEST {
      SpliceOn(was, pos, front, ids + (TextField(a.key) + SessionField(a)));
      SpliceOn(out[..], next, ids, TextField(a.key) + SessionField(a));
      next := PutIds(out, next, a);
      next := PutKeyAndSession(out, next, a);
    }
  }

  /** http_parser::serialize */
  method SerializeHttp(a: HttpAction, stale: nat, out: array<Byte>) returns (size: nat)
    requires 5 + |HttpBody(a)| <= out.Length
    modifies out
    ensures size == |Encode(Http(a))| && out[..size] == Encode(Http(a)) && out[size..] == old(out[size..])
  {
    hide *;
    HttpParts(a);
    ghost var was := out[..];
    size := PutHeader(out, HTTP_SYNC, stale);
    size := PutHttpBody(out, size, a);
    NothingBehind(HttpBody(a));
    Finish(out, size, was, HTTP_SYNC, stale, HttpBody(a), []);
    NothingBefore(was[size..]);
    assert was[size..] == old(out[size..]);
  }

  lemma NothingBehind(s: seq<Byte>)
    ensures s + [] == s
  {
  }

  lemma NothingBefore(s: seq<Byte>)
    ensures [] + s == s
  {
  }

  // ---------------------------------------------------------------------------
  // Parsers: ... = buffer[(*buffer_used)++]

  lemma LittleEndianStep(b: seq<Byte>, i: nat)
    requires i < |b|
    ensures Limit(i) * FromLittleEndian(b[i..]) == Limit(i) * b[i] + Limit(i + 1) * FromLittleEndian(b[i + 1..])
  {
    assert b[i..][1..] == b[i + 1..];
    var (l, x, f) := (Limit(i), b[i] as int, FromLittleEndian(b[i + 1..]));
    assert l * (x + 256 * f) == l * x + (256 * l) * f;
  }

  /** k bytes, each or-ed in at its place. */
  method GetLittleEndian(buffer: array<Byte>, pos: nat, k: nat) returns (n: nat)
    requires pos + k <= buffer.Length
    ensures n == FromLittleEndian(buffer[pos..pos + k])
  {
    ghost var b := buffer[pos..pos + k];
    n := 0;
    var unit: nat := 1;
    assert b[0..] == b;
    for i := 0 to k
      invariant unit == Limit(i)
      invariant FromLittleEndian(b) == n + Limit(i) * FromLittleEndian(b[i..])
    {
      LittleEndianStep(b, i);
      n := n + unit * buffer[pos + i];
      unit := 256 * unit;
    }
  }

  lemma {:induction false} ReadStampsNext(b: seq<Byte>, n: nat)
    requires 8 * (n + 1) <= |b|
    ensures ReadStamps(b, n + 1) == ReadStamps(b, n) + [FromLittleEndian(b[8 * n..8 * n + 8])]
  {
    hide FromLittleEndian;
    if n == 0 {
      assert b[0..8] == b[..8];
      assert ReadStamps(b[8..], 0) == [] && ReadStamps(b, 0) == [];
    } else {
      ReadStampsNext(b[8..], n - 1);
      assert b[8..][8 * (n - 1)..8 * (n - 1) + 8] == b[8 * n..8 * n + 8];
    }
  }

  method GetStamps(buffer: array<Byte>, pos: nat, n: nat) returns (stamps: seq<nat>)
    requires pos + 8 * n <= buffer.Length
    ensures stamps == ReadStamps(buffer[pos..], n)
  {
    ghost var b := buffer[pos..];
    stamps := [];
    for i := 0 to n
      invariant stamps == ReadStamps(b, i)
    {
      ReadStampsNext(b, i);
      assert b[8 * i..8 * i + 8] == buffer[pos + 8 * i..pos + 8 * i + 8];
      var stamp := GetLittleEndian(buffer, pos + 8 * i, 8);
      stamps := stamps + [stamp];
    }
  }

  /** n characters, appended one by one. */
  method GetChars(buffer: array<Byte>, pos: nat, n: nat) returns (s: string)
    requires pos + n <= buffer.Length
    ensures s == Chars(buffer[pos..pos + n])
  {
    s := "";
    for i := 0 to n
      invariant s == Chars(buffer[pos..pos + i])
    {
      s := s + [buffer[pos + i] as char];
    }
  }

  /** A value and the cursor behind it. */
  datatype Got<T> = Got(value: T, next: nat)

  /** What a parser at pos gets, in terms of what the rest of the buffer denotes. */
  ghost predicate Agree<T>(buffer: seq<Byte>, got: Option<Got<T>>, f: Option<Field<T>>) {
    match (got, f)
    case (Some(g), Some(v)) => g.value == v.value && g.next <= |buffer| && buffer[g.next..] == v.rest
    case (None, None) => true
    case _ => false
  }

  method GetText(buffer: array<Byte>, pos: nat) returns (got: Option<Got<string>>)
    requires pos <= buffer.Length
    ensures Agree(buffer[..], got, TakeText(buffer[pos..]))
  {
    if pos == buffer.Length || buffer.Length - pos - 1 < buffer[pos] {
      return None;
    }
    var n := buffer[pos];
    var s := GetChars(buffer, pos + 1, n);
    assert buffer[pos..][1..][..n] == buffer[pos + 1..pos + 1 + n];
    assert buffer[pos..][1..][n..] == buffer[..][pos + 1 + n..];
    got := Some(Got(s, pos + 1 + n));
  }

  method GetName(buffer: array<Byte>, pos: nat) returns (got: Option<Got<string>>)
    requires pos <= buffer.Length
    ensures Agree(buffer[..], got, TakeName(buffer[pos..]))
  {
    if pos == buffer.Length {
      return None;
    }
    var n := if buffer[pos] == 0 then 0 else buffer[pos] - 1;
    if buffer.Length - pos - 1 < n {
      return None;
    }
    var s := GetChars(buffer, pos + 1, n);
    assert buffer[pos..][1..][..n] == buffer[pos + 1..pos + 1 + n];
    assert buffer[pos..][1..][n..] == buffer[..][pos + 1 + n..];
    got := Some(Got(s, pos + 1 + n));
  }

  method GetEntry(ip: string, buffer: array<Byte>, pos: nat) returns (got: Option<Got<UserEntry>>)
    requires pos <= buffer.Length
    ensures Agree(buffer[..], got, TakeEntry(ip, buffer[pos..]))
  {
    if buffer.Length - pos < 3 {
      return None;
    }
    var n: nat := buffer[pos + 2];
    if buffer.Length - pos - 3 < 8 * n {
      return None;
    }
    var stamps := GetStamps(buffer, pos + 3, n);
    assert buffer[pos..][3..] == buffer[pos + 3..];
    assert buffer[pos..][3 + 8 * n..] == buffer[..][pos + 3 + 8 * n..];
    got := Some(Got(UserEntry(ip, buffer[pos + 1], buffer[pos], stamps), pos + 3 + 8 * n));
  }

  lemma RestAt(buffer: seq<Byte>, pos: nat, n: nat)
    requires pos + n <= |buffer|
    ensures buffer[pos..][n..] == buffer[pos + n..]
  {
  }

  /** xt_recent_action_parser::deserialize behind the header; None where it would read past the array. */
  method GetRecent(buffer: array<Byte>, pos: nat) returns (got: Option<Got<RecentAction>>)
    requires pos <= buffer.Length
    ensures Agree(buffer[..], got, TakeRecent(buffer[pos..]))
  {
    hide TakeName, TakeEntry, Dotted;
    if pos == buffer.Length {
      return None;
    }
    var code := buffer[pos];
    if code == 1 || code == 2 {
      if buffer.Length - pos < 6 {
        return None;
      }
      assert buffer[pos..][2..6] == buffer[pos + 2..pos + 6];
      RestAt(buffer[..], pos, 6);
      var ip := Dotted(buffer[pos + 2..pos + 6]);
      if code == 2 {
        var name := GetName(buffer, pos + 6);
        got := if name.None? then None else Some(Got(DeleteEntry(name.value.value, ip), name.value.next));
      } else {
        var e := GetEntry(ip, buffer, pos + 6);
        if e.None? {
          return None;
        }
        var name := GetName(buffer, e.value.next);
        got := if name.None? then None else Some(Got(AddUpdEntry(name.value.value, e.value.value), name.value.next));
      }
    } else {
      RestAt(buffer[..], pos, 1);
      var name := GetName(buffer, pos + 1);
      if name.None? {
        return None;
      }
      var table := name.value.value;
      var a := if code == 3 then FlushTable(table) else if code == 4 then DeleteTable(table) else UnknownAction(code, table);
      got := Some(Got(a, name.value.next));
    }
  }

  lemma FieldsAt(b: seq<Byte>, pos: nat)
    requires pos + 12 <= |b|
    ensures var r := b[pos..]; r[..4] == b[pos..pos + 4] && r[4..8] == b[pos + 4..pos + 8] && r[8..12] == b[pos + 8..pos + 12]
  {
  }

  lemma FrontAt(b: seq<Byte>, at: nat, n: nat)
    requires at + n <= |b|
    ensures b[at..][..n] == b[at..at + n]
  {
  }

  method GetSession(code: nat, farm: string, buffer: array<Byte>, pos: nat) returns (got: Option<Got<HttpAction>>)
    requires pos <= buffer.Length
    ensures Agree(buffer[..], got, TakeSession(code, farm, buffer[pos..]))
  {
    hide TakeText, HasSession, FromLittleEndian;
    if buffer.Length - pos < 12 {
      return None;
    }
    FieldsAt(buffer[..], pos);
    var l := GetLittleEndian(buffer, pos, 4);
    var s := GetLittleEndian(buffer, pos + 4, 4);
    var k := GetLittleEndian(buffer, pos + 8, 4);
    RestAt(buffer[..], pos, 12);
    var key := GetText(buffer, pos + 12);
    if key.None? {
      return None;
    }
    if !HasSession(code) {
      return Some(Got(HttpAction(code, farm, l, s, k, key.value.value, "", 0), key.value.next));
    }
    var c := GetText(buffer, key.value.next);
    if c.None? || buffer.Length - c.value.next < 8 {
      return None;
    }
    var at := c.value.next;
    RestAt(buffer[..], at, 8);
    FrontAt(buffer[..], at, 8);
    var time := GetLittleEndian(buffer, at, 8);
    got := Some(Got(HttpAction(code, farm, l, s, k, key.value.value, c.value.value, time), at + 8));
  }

  /** http_parser::deserialize behind the header. */
  method GetHttp(buffer: array<Byte>, pos: nat) returns (got: Option<Got<HttpAction>>)
    requires pos <= buffer.Length
    ensures Agree(buffer[..], got, TakeHttp(buffer[pos..]))
  {
    hide TakeText, TakeSession;
    if pos == buffer.Length {
      return None;
    }
    RestAt(buffer[..], pos, 1);
    var farm := GetText(buffer, pos + 1);
    if farm.None? {
      return None;
    }
    if buffer[pos] == SYNC_REQUEST {
      return Some(Got(HttpAction(buffer[pos], farm.value.value, 0, 0, 0, "", "", 0), farm.value.next));
    }
    got := GetSession(buffer[pos], farm.value.value, buffer, farm.value.next);
  }

  /** pkt_parser::deserialize: the header's test, then the parser the type selects. */
  method Deserialize(buffer: array<Byte>, size: nat) returns (r: Parse)
    requires size <= buffer.Length
    ensures r == Decode(buffer[..], size)
  {
    hide TakeRecent, TakeHttp;
    if size < 5 {
      return Incomplete;
    }
    var low: nat, high: nat := buffer[3], buffer[4];
    if size < low + 256 * high || buffer[2] == XT_RECENT_TABLE {
      return Incomplete;
    }
    if buffer[2] == XT_RECENT_SYNC {
      RestAt(buffer[..], 0, 5);
      var got := GetRecent(buffer, 5);
      r := if got.None? then Overrun else Parsed(Recent(got.value.value), got.value.next);
    } else if buffer[2] == HTTP_SYNC {
      RestAt(buffer[..], 0, 5);
      var got := GetHttp(buffer, 5);
      r := if got.None? then Overrun else Parsed(Http(got.value.value), got.value.next);
    } else {
      r := Parsed(Control(buffer[2]), 5);
    }
  }
}
