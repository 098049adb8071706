// Cutting packets out of a byte stream that arrives in arbitrary pieces.
module Reassembly {
  import opened Seqs
  import opened Text
  import opened Messages
  import opened Wire
  import opened Codec

  const MAX_PACKET_SIZE := 65555 * 100
  const HTTP_MAX_PACKET_SIZE := 65350 * 100

  // ---------------------------------------------------------------------------
  // The stream that is sent

  function Sent(p: Packet): (r: seq<Byte>)
    requires Sendable(p)
    ensures 5 <= |r| <= LARGEST
  {
    EncodedSize(p);
    Encode(p)
  }

  predicate AllSendable(ps: seq<Packet>) {
    forall i :: 0 <= i < |ps| ==> Sendable(ps[i])
  }

  /** The encodings of ps; the stream is Flatten of them. */
  function Frames(ps: seq<Packet>): (r: seq<seq<Byte>>)
    requires AllSendable(ps)
    ensures |r| == |ps| && forall i :: 0 <= i < |ps| ==> r[i] == Sent(ps[i])
  {
    seq(|ps|, i requires 0 <= i < |ps| => Sent(ps[i]))
  }

  function Arrived(ps: seq<Packet>): (r: seq<Packet>)
    ensures |r| == |ps| && forall i :: 0 <= i < |ps| ==> r[i] == OnWire(ps[i])
  {
    seq(|ps|, i requires 0 <= i < |ps| => OnWire(ps[i]))
  }

  /** How many frames lie complete within the first n bytes of their stream. */
  function Whole(fs: seq<seq<Byte>>, n: nat): (k: nat)
    ensures k <= |fs|
  {
    if fs == [] || n < |fs[0]| then 0 else 1 + Whole(fs[1..], n - |fs[0]|)
  }

  /** Where the first frame that is not complete within n bytes begins. */
  function Cut(fs: seq<seq<Byte>>, n: nat): (c: nat)
    ensures c <= n && c <= |Flatten(fs)|
  {
    if fs == [] || n < |fs[0]| then 0 else |fs[0]| + Cut(fs[1..], n - |fs[0]|)
  }

  // ---------------------------------------------------------------------------
  // The two receive loops

  /** The loop of connection::receive_task, and that of http_sync::listen_task. */
  datatype Loop = Connection | HttpService

  /** Waiting for more bytes; Stuck: would enqueue the same packet for ever; Broken: reads or counts
      outside the buffer; Full: no room to receive into, which reads as a disconnect. */
  datatype Status = Waiting | Stuck | Broken | Full

  datatype Drained = Drained(packets: seq<Packet>, buffer: seq<Byte>, size: nat, status: Status)

  /** listen_task parses HTTP packets only. */
  function Next(loop: Loop, buffer: seq<Byte>, size: nat): Parse
    requires size <= |buffer|
  {
    if loop.HttpService? && Complete(buffer, size) && buffer[2] != HTTP_SYNC then Incomplete else Decode(buffer, size)
  }

  /** memmove(buffer, buffer + used, left) */
  function Shift(buffer: seq<Byte>, used: nat, left: nat): (r: seq<Byte>)
    requires used + left <= |buffer|
    ensures |r| == |buffer| && r[..left] == buffer[used..used + left]
  {
    buffer[used..used + left] + buffer[left..]
  }

  lemma UsedAtLeast(loop: Loop, buffer: seq<Byte>, size: nat)
    requires size <= |buffer|
    ensures Next(loop, buffer, size).Parsed? ==> 5 <= Next(loop, buffer, size).used <= |buffer|
  {
    hide TakeRecent, TakeHttp;
  }

  /** A drain of which packets have been enqueued already. */
  function Behind(packets: seq<Packet>, d: Drained): Drained {
    d.(packets := packets + d.packets)
  }

  /** Deserialize, enqueue, shift, until the bytes left hold no packet. Only receive_task compares the room
      behind the buffered bytes with the packet before it takes it off. */
  function Drain(loop: Loop, buffer: seq<Byte>, size: nat): (r: Drained)
    requires size <= |buffer|
    ensures |r.buffer| == |buffer| && r.size <= size
    decreases size
  {
    UsedAtLeast(loop, buffer, size);
    match Next(loop, buffer, size)
    case Incomplete => Drained([], buffer, size, Waiting)
    case Overrun => Drained([], buffer, size, Broken)
    case Parsed(p, used) =>
      if loop.Connection? && |buffer| - size < used then Drained([p], buffer, size, Stuck)
      else if size < used then Drained([p], buffer, size, Broken)
      else Behind([p], Drain(loop, Shift(buffer, used, size - used), size - used))
  }

  /** Five bytes are cleared where there is room for them, then the chunk is received. */
  function Received(buffer: seq<Byte>, size: nat, chunk: seq<Byte>): (r: seq<Byte>)
    requires size + |chunk| <= |buffer|
    ensures |r| == |buffer|
  {
    Splice(if |buffer| - size > 4 then Splice(buffer, size, [0, 0, 0, 0, 0]) else buffer, size, chunk)
  }

  /** What is received before a drain; once: by a single call of recv. */
  datatype Chunk = Chunk(bytes: seq<Byte>, once: bool)

  function Stream(chunks: seq<Chunk>): seq<Byte> {
    if chunks == [] then [] else chunks[0].bytes + Stream(chunks[1..])
  }

  /** recv is called once more with no room left, unless a single call has filled the empty buffer. */
  predicate Fills(size: nat, chunk: Chunk, max: nat) {
    size + |chunk.bytes| >= max && !(size == 0 && chunk.once && |chunk.bytes| == max)
  }

  /** Reading chunk after chunk. */
  function Run(loop: Loop, buffer: seq<Byte>, size: nat, chunks: seq<Chunk>): (r: Drained)
    requires size <= |buffer|
    ensures |r.buffer| == |buffer| && r.size <= |buffer|
    decreases chunks
  {
    if chunks == [] then Drained([], buffer, size, Waiting)
    else if Fills(size, chunks[0], |buffer|) then Drained([], buffer, size, Full)
    else
      var d := Drain(loop, Received(buffer, size, chunks[0].bytes), size + |chunks[0].bytes|);
      if d.status != Waiting then d
      else
        var r := Run(loop, d.buffer, d.size, chunks[1..]);
        r.(packets := d.packets + r.packets)
  }

  // ---------------------------------------------------------------------------
  // One drain

  /** Room for every frame at the moment it is taken off: the bytes buffered then and the frame fit. */
  predicate Roomy(fs: seq<seq<Byte>>, size: nat, max: nat) {
    fs == [] || size < |fs[0]| || (size + |fs[0]| <= max && Roomy(fs[1..], size - |fs[0]|, max))
  }

  predicate Fitting(loop: Loop, ps: seq<Packet>) {
    AllSendable(ps) && (loop.HttpService? ==> forall i :: 0 <= i < |ps| ==> ps[i].Http?)
  }

  /** A prefix of the stream that starts with p decodes to p or is incomplete. */
  lemma NextOfStream(loop: Loop, p: Packet, rest: seq<Byte>, buffer: seq<Byte>, size: nat)
    requires Sendable(p) && (loop.HttpService? ==> p.Http?)
    requires size <= |buffer| && size <= |Sent(p) + rest| && buffer[..size] == (Sent(p) + rest)[..size]
    ensures Next(loop, buffer, size) == if |Sent(p)| <= size then Parsed(OnWire(p), |Sent(p)|) else Incomplete
  {
    hide Next, Decode, Sent, Sendable, OnWire;
    FrontOf(Sent(p), rest, buffer, size);
    if size < |Sent(p)| {
      SentPrefix(p, buffer, size);
      IncompleteNext(loop, buffer, size);
    } else {
      NextWhole(loop, p, buffer[|Sent(p)|..], size);
    }
  }

  lemma FrontOf(frame: seq<Byte>, rest: seq<Byte>, buffer: seq<Byte>, size: nat)
    requires size <= |buffer| && size <= |frame + rest| && buffer[..size] == (frame + rest)[..size]
    ensures size < |frame| ==> buffer[..size] == frame[..size]
    ensures |frame| <= size ==> buffer == frame + buffer[|frame|..]
  {
    if |frame| <= size {
      assert buffer[..size][..|frame|] == frame;
    }
  }

  lemma SentPrefix(p: Packet, buffer: seq<Byte>, size: nat)
    requires Sendable(p) && size < |Sent(p)| && size <= |buffer| && buffer[..size] == Sent(p)[..size]
    ensures Decode(buffer, size) == Incomplete
  {
    hide Decode, Encode, Sendable;
    PrefixIsIncomplete(p, buffer, size);
  }

  /** The encoding is there in full. */
  lemma NextWhole(loop: Loop, p: Packet, tail: seq<Byte>, size: nat)
    requires Sendable(p) && (loop.HttpService? ==> p.Http?) && |Sent(p)| <= size <= |Sent(p) + tail|
    ensures Next(loop, Sent(p) + tail, size) == Parsed(OnWire(p), |Sent(p)|)
  {
    hide Decode, Encode, Sendable, OnWire, Complete;
    CodecRoundTrip(p, tail, size);
    HeaderBack(p, tail, size);
  }

  lemma IncompleteNext(loop: Loop, buffer: seq<Byte>, size: nat)
    requires size <= |buffer| && Decode(buffer, size) == Incomplete
    ensures Next(loop, buffer, size) == Incomplete
  {
  }

  lemma ShiftedStream(head: seq<Byte>, rest: seq<Byte>, buffer: seq<Byte>, size: nat)
    requires |head| <= size <= |buffer| && size <= |head + rest| && buffer[..size] == (head + rest)[..size]
    ensures Shift(buffer, |head|, size - |head|)[..size - |head|] == rest[..size - |head|]
  {
    assert buffer[|head|..size] == buffer[..size][|head|..];
    assert (head + rest)[..size][|head|..] == rest[..size - |head|];
  }

  /** What a drain leaves of a stream of which size bytes are buffered: the packets of the complete
      frames are out, and the bytes behind them are kept. */
  predicate DrainedTo(fs: seq<seq<Byte>>, arrived: seq<Packet>, size: nat, d: Drained)
    requires |fs| == |arrived| && size <= |Flatten(fs)|
  {
    && d.status == Waiting
    && d.packets == arrived[..Whole(fs, size)]
    && d.size == size - Cut(fs, size) && d.size <= |d.buffer|
    && d.buffer[..d.size] == Flatten(fs)[Cut(fs, size)..size]
  }

  lemma DrainedNext(fs: seq<seq<Byte>>, arrived: seq<Packet>, size: nat, d: Drained)
    requires |fs| == |arrived| > 0 && |fs[0]| <= size <= |Flatten(fs)|
    requires DrainedTo(fs[1..], arrived[1..], size - |fs[0]|, d)
    ensures DrainedTo(fs, arrived, size, d.(packets := [arrived[0]] + d.packets))
  {
    var (n, k) := (|fs[0]|, Whole(fs, size));
    assert arrived[..k] == [arrived[0]] + arrived[1..][..k - 1];
    var c := Cut(fs[1..], size - n);
    assert Flatten(fs)[n + c..size] == Flatten(fs[1..])[c..size - n];
  }

  /** Stopping below five bytes, as receive_task does, is where the parser would stop anyway. */
  lemma DrainBelowFive(loop: Loop, buffer: seq<Byte>, size: nat)
    requires size < 5 && size <= |buffer|
    ensures Drain(loop, buffer, size) == Drained([], buffer, size, Waiting)
  {
  }

  lemma TailOf(loop: Loop, ps: seq<Packet>, k: nat)
    requires Fitting(loop, ps) && k <= |ps|
    ensures Fitting(loop, ps[k..]) && Frames(ps[k..]) == Frames(ps)[k..] && Arrived(ps[k..]) == Arrived(ps)[k..]
  {
    hide Sendable, OnWire, Sent;
  }

  /** A turn that takes a packet off: receive_task needs room for it first. */
  lemma DrainTurn(loop: Loop, buffer: seq<Byte>, size: nat, p: Packet, used: nat)
    requires size <= |buffer| && Next(loop, buffer, size) == Parsed(p, used) && 5 <= used <= size
    ensures if loop.Connection? && |buffer| - size < used then Drain(loop, buffer, size).status == Stuck
            else Drain(loop, buffer, size) == Behind([p], Drain(loop, Shift(buffer, used, size - used), size - used))
  {
    hide Next, Shift, Behind;
  }

  /** Stuck exactly where a packet finds no room, and only in receive_task; otherwise the packets that are
      complete are out and the bytes of the next are kept. */
  predicate DrainOutcome(loop: Loop, fs: seq<seq<Byte>>, arrived: seq<Packet>, size: nat, d: Drained)
    requires |fs| == |arrived| && size <= |Flatten(fs)|
  {
    if loop.Connection? && !Roomy(fs, size, |d.buffer|) then d.status == Stuck else DrainedTo(fs, arrived, size, d)
  }

  lemma StuckOrNext(loop: Loop, fs: seq<seq<Byte>>, arrived: seq<Packet>, buffer: seq<Byte>, size: nat, d: Drained, rest: Drained)
    requires |fs| == |arrived| > 0 && |fs[0]| <= size <= |buffer| && size <= |Flatten(fs)| && |d.buffer| == |rest.buffer| == |buffer|
    requires if loop.Connection? && |buffer| - size < |fs[0]| then d.status == Stuck else d == Behind([arrived[0]], rest)
    requires DrainOutcome(loop, fs[1..], arrived[1..], size - |fs[0]|, rest)
    ensures DrainOutcome(loop, fs, arrived, size, d)
  {
    var left := size - |fs[0]|;
    assert Roomy(fs, size, |buffer|) <==> size + |fs[0]| <= |buffer| && Roomy(fs[1..], left, |buffer|);
    hide DrainedTo, Roomy, Flatten;
    if !(loop.Connection? && !Roomy(fs, size, |buffer|)) {
      DrainedNext(fs, arrived, size, rest);
    }
  }

  /** The parser on the front of a stream. */
  lemma FirstNext(loop: Loop, ps: seq<Packet>, buffer: seq<Byte>, size: nat)
    requires Fitting(loop, ps) && ps != []
    requires size <= |buffer| && size <= |Flatten(Frames(ps))| && buffer[..size] == Flatten(Frames(ps))[..size]
    ensures var (first, p) := (Frames(ps)[0], Arrived(ps)[0]);
            5 <= |first| && Next(loop, buffer, size) == if |first| <= size then Parsed(p, |first|) else Incomplete
  {
    hide OnWire, Sent, Next, Decode;
    NextOfStream(loop, ps[0], Flatten(Frames(ps)[1..]), buffer, size);
  }

  lemma RestOfStream(fs: seq<seq<Byte>>, buffer: seq<Byte>, size: nat)
    requires fs != [] && |fs[0]| <= size <= |buffer| && size <= |Flatten(fs)| && buffer[..size] == Flatten(fs)[..size]
    ensures var left := size - |fs[0]|;
            left <= |Flatten(fs[1..])| && Shift(buffer, |fs[0]|, left)[..left] == Flatten(fs[1..])[..left]
  {
    ShiftedStream(fs[0], Flatten(fs[1..]), buffer, size);
  }

  /** The http loop never gets past a packet of another type; receive_task takes it off. */
  lemma ForeignPacket(p: Packet, rest: seq<Byte>)
    requires Sendable(p) && !p.Http? && (p.Control? ==> p.kind !in {4, 5, 6})
    ensures Drain(HttpService, Sent(p) + rest, |Sent(p) + rest|) == Drained([], Sent(p) + rest, |Sent(p) + rest|, Waiting)
    ensures Next(Connection, Sent(p) + rest, |Sent(p) + rest|) == Parsed(OnWire(p), |Sent(p)|)
  {
    var b := Sent(p) + rest;
    CodecRoundTrip(p, rest, |b|);
    HeaderBack(p, rest, |b|);
    hide Encode, Decode, Sendable, OnWire;
  }

  /** One drain of any part of a stream. */
  lemma {:induction false} DrainStream(loop: Loop, ps: seq<Packet>, buffer: seq<Byte>, size: nat)
    requires Fitting(loop, ps)
    requires size <= |buffer| && size <= |Flatten(Frames(ps))| && buffer[..size] == Flatten(Frames(ps))[..size]
    ensures DrainOutcome(loop, Frames(ps), Arrived(ps), size, Drain(loop, buffer, size))
    decreases |ps|
  {
    hide Sendable, OnWire, Sent, Next, Drain, Shift, DrainOutcome;
    var (fs, arrived) := (Frames(ps), Arrived(ps));
    if ps == [] {
      NothingToDrain(loop, buffer);
    } else {
      TailOf(loop, ps, 1);
      FirstNext(loop, ps, buffer, size);
      hide Fitting, Frames, Arrived;
      if |fs[0]| <= size {
        RestOfStream(fs, buffer, size);
        hide Flatten;
        DrainStream(loop, ps[1..], Shift(buffer, |fs[0]|, size - |fs[0]|), size - |fs[0]|);
        hide Behind;
        DrainTurn(loop, buffer, size, arrived[0], |fs[0]|);
        StuckOrNext(loop, fs, arrived, buffer, size, Drain(loop, buffer, size),
                    Drain(loop, Shift(buffer, |fs[0]|, size - |fs[0]|), size - |fs[0]|));
      } else {
        DrainWaits(loop, fs, arrived, buffer, size);
      }
    }
  }

  lemma NothingToDrain(loop: Loop, buffer: seq<Byte>)
    ensures DrainOutcome(loop, [], [], 0, Drain(loop, buffer, 0))
  {
    DrainBelowFive(loop, buffer, 0);
  }

  lemma DrainWaits(loop: Loop, fs: seq<seq<Byte>>, arrived: seq<Packet>, buffer: seq<Byte>, size: nat)
    requires |fs| == |arrived| > 0 && size <= |buffer| && size <= |Flatten(fs)| && size < |fs[0]|
    requires buffer[..size] == Flatten(fs)[..size] && Next(loop, buffer, size) == Incomplete
    ensures DrainOutcome(loop, fs, arrived, size, Drain(loop, buffer, size))
  {
    hide Next;
  }

  // ---------------------------------------------------------------------------
  // A whole run

  function After(fs: seq<seq<Byte>>, n: nat): (r: seq<seq<Byte>>)
    ensures |r| == |fs| - Whole(fs, n)
  {
    if fs == [] || n < |fs[0]| then fs else After(fs[1..], n - |fs[0]|)
  }

  lemma {:induction false} AfterIsTail(fs: seq<seq<Byte>>, n: nat)
    ensures After(fs, n) == fs[Whole(fs, n)..]
  {
    if fs != [] && |fs[0]| <= n {
      AfterIsTail(fs[1..], n - |fs[0]|);
    }
  }

  lemma DropHead(a: seq<Byte>, b: seq<Byte>, c: nat)
    requires c <= |b|
    ensures (a + b)[|a| + c..] == b[c..]
  {
  }

  lemma {:induction false} StreamAfter(fs: seq<seq<Byte>>, n: nat)
    requires n <= |Flatten(fs)|
    ensures Flatten(After(fs, n)) == Flatten(fs)[Cut(fs, n)..]
    decreases |fs|
  {
    if fs != [] && |fs[0]| <= n {
      StreamAfter(fs[1..], n - |fs[0]|);
      DropHead(fs[0], Flatten(fs[1..]), Cut(fs[1..], n - |fs[0]|));
    }
  }

  /** The frame behind the complete ones is not complete. */
  lemma {:induction false} NoneAfter(fs: seq<seq<Byte>>, n: nat)
    ensures Whole(After(fs, n), n - Cut(fs, n)) == 0
    decreases |fs|
  {
    if fs != [] && |fs[0]| <= n {
      NoneAfter(fs[1..], n - |fs[0]|);
    }
  }

  /** What a longer prefix of the stream completes. */
  lemma {:induction false} WholeOn(fs: seq<seq<Byte>>, n: nat, m: nat)
    requires n <= m
    ensures Whole(fs, m) == Whole(fs, n) + Whole(After(fs, n), m - Cut(fs, n))
    ensures Cut(fs, m) == Cut(fs, n) + Cut(After(fs, n), m - Cut(fs, n))
    decreases |fs|
  {
    hide After, Cut, Whole;
    if fs != [] && |fs[0]| <= n {
      var k := |fs[0]|;
      WholeFirst(fs, n);
      WholeFirst(fs, m);
      WholeOn(fs[1..], n - k, m - k);
    } else {
      WholeNone(fs, n);
    }
  }

  lemma WholeFirst(fs: seq<seq<Byte>>, n: nat)
    requires fs != [] && |fs[0]| <= n
    ensures var k := |fs[0]|;
            && After(fs, n) == After(fs[1..], n - k)
            && Cut(fs, n) == k + Cut(fs[1..], n - k) && Whole(fs, n) == 1 + Whole(fs[1..], n - k)
  {
  }

  lemma WholeNone(fs: seq<seq<Byte>>, n: nat)
    requires fs == [] || n < |fs[0]|
    ensures After(fs, n) == fs && Cut(fs, n) == 0 && Whole(fs, n) == 0
  {
  }

  lemma {:induction false} CutAll(fs: seq<seq<Byte>>)
    ensures Whole(fs, |Flatten(fs)|) == |fs| && Cut(fs, |Flatten(fs)|) == |Flatten(fs)|
  {
    if fs != [] {
      CutAll(fs[1..]);
    }
  }

  /** Every chunk leaves room behind it, and in receive_task every packet finds room when it is taken off. */
  predicate Flows(loop: Loop, fs: seq<seq<Byte>>, size: nat, chunks: seq<Chunk>, max: nat)
    decreases chunks
  {
    chunks == [] ||
    var n := size + |chunks[0].bytes|;
    && !Fills(size, chunks[0], max)
    && (loop.Connection? ==> Roomy(fs, n, max))
    && Flows(loop, After(fs, n), n - Cut(fs, n), chunks[1..], max)
  }

  /** The buffered bytes and the chunks are the beginning of the stream, and no frame is complete yet. */
  predicate Feeds(fs: seq<seq<Byte>>, buffer: seq<Byte>, size: nat, chunks: seq<Chunk>) {
    && size <= |buffer| && size + |Stream(chunks)| <= |Flatten(fs)|
    && buffer[..size] + Stream(chunks) == Flatten(fs)[..size + |Stream(chunks)|]
    && Whole(fs, size) == 0
  }

  /** A run reads on exactly while the chunks flow, never leaves the buffer, and then has yielded the
      packets of the complete frames in order and holds the bytes of the next. */
  predicate Outcome(loop: Loop, fs: seq<seq<Byte>>, arrived: seq<Packet>, size: nat, chunks: seq<Chunk>, r: Drained)
    requires |fs| == |arrived|
  {
    && r.status != Broken
    && (r.status == Waiting <==> Flows(loop, fs, size, chunks, |r.buffer|))
    && (r.status == Waiting ==> size + |Stream(chunks)| <= |Flatten(fs)| && DrainedTo(fs, arrived, size + |Stream(chunks)|, r))
  }

  /** The bytes a drain keeps and those still to come continue the stream behind the complete frames. */
  lemma KeptAndLater(fs: seq<seq<Byte>>, n: nat, kept: seq<Byte>, later: seq<Byte>)
    requires n + |later| <= |Flatten(fs)|
    requires kept == Flatten(fs)[Cut(fs, n)..n] && later == Flatten(fs)[n..n + |later|]
    ensures |kept| == n - Cut(fs, n) && |kept| + |later| <= |Flatten(After(fs, n))|
    ensures kept + later == Flatten(After(fs, n))[..|kept| + |later|]
    ensures Whole(After(fs, n), |kept|) == 0
  {
    StreamAfter(fs, n);
    NoneAfter(fs, n);
    hide After, Whole, Flatten, Cut;
    SlicesJoin(Flatten(fs), Cut(fs, n), n, n + |later|);
  }

  lemma StreamFirst(chunks: seq<Chunk>)
    requires chunks != []
    ensures Stream(chunks) == chunks[0].bytes + Stream(chunks[1..])
  {
  }

  lemma FirstChunk(fs: seq<seq<Byte>>, buffer: seq<Byte>, size: nat, chunks: seq<Chunk>)
    requires chunks != [] && Feeds(fs, buffer, size, chunks)
    ensures var (n, later) := (size + |chunks[0].bytes|, Stream(chunks[1..]));
            n + |later| <= |Flatten(fs)| && later == Flatten(fs)[n..n + |later|] && buffer[..size] + chunks[0].bytes == Flatten(fs)[..n]
  {
    hide Whole, Flatten, Stream;
    StreamFirst(chunks);
    LaterChunks(buffer[..size], chunks[0].bytes, Stream(chunks[1..]), Flatten(fs));
  }

  lemma FeedsNext(fs: seq<seq<Byte>>, arrived: seq<Packet>, buffer: seq<Byte>, size: nat, chunks: seq<Chunk>, d: Drained)
    requires |fs| == |arrived| && chunks != [] && Feeds(fs, buffer, size, chunks)
    requires DrainedTo(fs, arrived, size + |chunks[0].bytes|, d)
    ensures Feeds(After(fs, size + |chunks[0].bytes|), d.buffer, d.size, chunks[1..])
  {
    hide After, Whole, Flatten, Cut, Stream;
    var (n, later) := (size + |chunks[0].bytes|, Stream(chunks[1..]));
    FirstChunk(fs, buffer, size, chunks);
    var kept := d.buffer[..d.size];
    assert n <= |Flatten(fs)| && |kept| == d.size && kept == Flatten(fs)[Cut(fs, n)..n];
    hide DrainedTo;
    KeptAndLater(fs, n, kept, later);
  }

  lemma SlicesJoin(s: seq<Byte>, c: nat, n: nat, m: nat)
    requires c <= n <= m <= |s|
    ensures s[c..n] + s[n..m] == s[c..][..m - c]
  {
  }

  lemma LaterChunks(held: seq<Byte>, chunk: seq<Byte>, later: seq<Byte>, stream: seq<Byte>)
    requires |held| + |chunk| + |later| <= |stream|
    requires held + (chunk + later) == stream[..|held| + |chunk| + |later|]
    ensures stream[|held| + |chunk|..|held| + |chunk| + |later|] == later
    ensures stream[..|held| + |chunk|] == held + chunk
  {
    var n := |held| + |chunk|;
    assert (held + (chunk + later))[n..] == later && (held + (chunk + later))[..n] == held + chunk;
    assert stream[..n + |later|][n..] == stream[n..n + |later|] && stream[..n + |later|][..n] == stream[..n];
  }

  lemma FirstReceived(fs: seq<seq<Byte>>, buffer: seq<Byte>, size: nat, chunks: seq<Chunk>)
    requires chunks != [] && Feeds(fs, buffer, size, chunks) && size + |chunks[0].bytes| <= |buffer|
    ensures size + |chunks[0].bytes| <= |Flatten(fs)|
    ensures Received(buffer, size, chunks[0].bytes)[..size + |chunks[0].bytes|] == Flatten(fs)[..size + |chunks[0].bytes|]
  {
    hide Flatten, Whole, Received, Stream;
    FirstChunk(fs, buffer, size, chunks);
    hide Feeds;
    ReceivedPrefix(buffer, size, chunks[0].bytes);
  }

  lemma ReceivedPrefix(buffer: seq<Byte>, size: nat, chunk: seq<Byte>)
    requires size + |chunk| <= |buffer|
    ensures Received(buffer, size, chunk)[..size + |chunk|] == buffer[..size] + chunk
  {
  }

  lemma PrefixOn<T>(s: seq<T>, k: nat, l: nat)
    requires k + l <= |s|
    ensures s[..k] + s[k..][..l] == s[..k + l]
  {
  }

  lemma SliceOfTail(s: seq<Byte>, c: nat, a: nat, b: nat)
    requires a <= b && c + b <= |s|
    ensures s[c..][a..b] == s[c + a..c + b]
  {
  }

  lemma DrainedOn(fs: seq<seq<Byte>>, arrived: seq<Packet>, n: nat, m: nat, d: Drained, r: Drained)
    requires |fs| == |arrived| && n <= m <= |Flatten(fs)|
    requires DrainedTo(fs, arrived, n, d)
    requires m - Cut(fs, n) <= |Flatten(After(fs, n))|
    requires DrainedTo(After(fs, n), arrived[Whole(fs, n)..], m - Cut(fs, n), r)
    ensures DrainedTo(fs, arrived, m, r.(packets := d.packets + r.packets))
  {
    hide Flatten, Whole, Cut, After;
    StreamAfter(fs, n);
    WholeOn(fs, n, m);
    var (rest, c) := (After(fs, n), Cut(fs, n));
    var (k, l, a) := (Whole(fs, n), Whole(rest, m - c), Cut(rest, m - c));
    PrefixOn(arrived, k, l);
    SliceOfTail(Flatten(fs), c, a, m - c);
    assert r.buffer[..r.size] == Flatten(fs)[c + a..m];
  }

  lemma OutcomeNext(loop: Loop, fs: seq<seq<Byte>>, arrived: seq<Packet>, size: nat, chunks: seq<Chunk>, d: Drained, r: Drained)
    requires |fs| == |arrived| && chunks != [] && size + |Stream(chunks)| <= |Flatten(fs)|
    requires DrainedTo(fs, arrived, size + |chunks[0].bytes|, d)
    requires !Fills(size, chunks[0], |r.buffer|) && (loop.Connection? ==> Roomy(fs, size + |chunks[0].bytes|, |r.buffer|))
    requires Outcome(loop, After(fs, size + |chunks[0].bytes|), arrived[Whole(fs, size + |chunks[0].bytes|)..], d.size, chunks[1..], r)
    ensures Outcome(loop, fs, arrived, size, chunks, r.(packets := d.packets + r.packets))
  {
    hide Roomy, Whole, After, Flatten, Cut, Fills;
    var (n, m) := (size + |chunks[0].bytes|, size + |Stream(chunks)|);
    assert d.size == n - Cut(fs, n) && |Stream(chunks)| == |chunks[0].bytes| + |Stream(chunks[1..])|;
    hide DrainedTo, Stream;
    if r.status == Waiting {
      DrainedOn(fs, arrived, n, m, d, r);
    }
  }

  lemma OutcomeAtOnce(loop: Loop, fs: seq<seq<Byte>>, arrived: seq<Packet>, size: nat, chunks: seq<Chunk>, r: Drained)
    requires |fs| == |arrived| && chunks != []
    requires Fills(size, chunks[0], |r.buffer|) || (loop.Connection? && !Roomy(fs, size + |chunks[0].bytes|, |r.buffer|))
    requires r.status == Stuck || r.status == Full
    ensures Outcome(loop, fs, arrived, size, chunks, r)
  {
  }

  lemma OutcomeOfNone(loop: Loop, fs: seq<seq<Byte>>, arrived: seq<Packet>, buffer: seq<Byte>, size: nat)
    requires |fs| == |arrived| && Feeds(fs, buffer, size, [])
    ensures Outcome(loop, fs, arrived, size, [], Drained([], buffer, size, Waiting))
  {
    assert Cut(fs, size) == 0;
    assert buffer[..size] + [] == buffer[..size];
  }

  /** Reassembly, for every packet sequence and every chunking of its stream. */
  lemma {:induction false} Reassembles(loop: Loop, ps: seq<Packet>, buffer: seq<Byte>, size: nat, chunks: seq<Chunk>)
    requires Fitting(loop, ps) && Feeds(Frames(ps), buffer, size, chunks)
    ensures Outcome(loop, Frames(ps), Arrived(ps), size, chunks, Run(loop, buffer, size, chunks))
    decreases chunks
  {
    hide Sendable, OnWire, Sent, Splice, Outcome, Roomy, Drain, Received, Frames, Arrived;
    var fs := Frames(ps);
    if chunks == [] {
      OutcomeOfNone(loop, fs, Arrived(ps), buffer, size);
    } else if !Fills(size, chunks[0], |buffer|) {
      var n := size + |chunks[0].bytes|;
      var d := Drain(loop, Received(buffer, size, chunks[0].bytes), n);
      FirstReceived(fs, buffer, size, chunks);
      DrainStream(loop, ps, Received(buffer, size, chunks[0].bytes), n);
      hide Fitting;
      if d.status == Waiting {
        FeedsNext(fs, Arrived(ps), buffer, size, chunks, d);
        AfterIsTail(fs, n);
        TailOf(loop, ps, Whole(fs, n));
        assert n <= |Flatten(fs)| && size + |Stream(chunks)| <= |Flatten(fs)|;
        hide Feeds, DrainedTo, Flatten, Whole, After;
        Reassembles(loop, ps[Whole(fs, n)..], d.buffer, d.size, chunks[1..]);
        OutcomeNext(loop, fs, Arrived(ps), size, chunks, d, Run(loop, d.buffer, d.size, chunks[1..]));
      } else {
        OutcomeAtOnce(loop, fs, Arrived(ps), size, chunks, d);
      }
    } else {
      OutcomeAtOnce(loop, fs, Arrived(ps), size, chunks, Run(loop, buffer, size, chunks));
    }
  }

  /** Once the whole stream has flowed in, every packet is out and nothing is left. */
  lemma AllArrive(loop: Loop, ps: seq<Packet>, buffer: seq<Byte>, chunks: seq<Chunk>)
    requires Fitting(loop, ps) && Stream(chunks) == Flatten(Frames(ps))
    requires Flows(loop, Frames(ps), 0, chunks, |buffer|)
    ensures Run(loop, buffer, 0, chunks).packets == Arrived(ps) && Run(loop, buffer, 0, chunks).size == 0
  {
    hide Run, Flatten, Sendable, OnWire, Sent, Flows;
    var fs := Frames(ps);
    assert Feeds(fs, buffer, 0, chunks);
    Reassembles(loop, ps, buffer, 0, chunks);
    CutAll(fs);
    assert Arrived(ps)[..|ps|] == Arrived(ps);
  }

  lemma RoomyWhenSmall(fs: seq<seq<Byte>>, size: nat, max: nat)
    requires (forall i :: 0 <= i < |fs| ==> |fs[i]| <= LARGEST) && size + LARGEST <= max
    ensures Roomy(fs, size, max)
    decreases |fs|
  {
    if fs != [] && |fs[0]| <= size {
      RoomyWhenSmall(fs[1..], size - |fs[0]|, max);
    }
  }

  /** Chunks that leave room for two packets always flow through receive_task; for listen_task one is enough. */
  lemma {:induction false} SmallChunksFlow(loop: Loop, fs: seq<seq<Byte>>, size: nat, chunks: seq<Chunk>, max: nat)
    requires forall i :: 0 <= i < |fs| ==> |fs[i]| <= LARGEST
    requires Whole(fs, size) == 0 && size + |Stream(chunks)| <= |Flatten(fs)|
    requires forall i :: 0 <= i < |chunks| ==> |chunks[i].bytes| + (if loop.Connection? then 2 * LARGEST else LARGEST) <= max
    ensures Flows(loop, fs, size, chunks, max)
    decreases chunks
  {
    if chunks != [] {
      var n := size + |chunks[0].bytes|;
      assert size < LARGEST;
      if loop.Connection? {
        RoomyWhenSmall(fs, n, max);
      }
      StreamAfter(fs, n);
      NoneAfter(fs, n);
      AfterIsTail(fs, n);
      SmallChunksFlow(loop, After(fs, n), n - Cut(fs, n), chunks[1..], max);
    }
  }

  function MaxPacketSize(loop: Loop): nat {
    if loop.Connection? then MAX_PACKET_SIZE else HTTP_MAX_PACKET_SIZE
  }

  /** In the buffers the daemon allocates, everything flows that arrives in chunks of at most 6.5 million bytes. */
  lemma RealBuffersFlow(loop: Loop, ps: seq<Packet>, chunks: seq<Chunk>)
    requires Fitting(loop, ps) && |Stream(chunks)| <= |Flatten(Frames(ps))|
    requires forall i :: 0 <= i < |chunks| ==> |chunks[i].bytes| <= 6500000
    ensures Flows(loop, Frames(ps), 0, chunks, MaxPacketSize(loop))
  {
    hide Sendable, Flows;
    SmallChunksFlow(loop, Frames(ps), 0, chunks, MaxPacketSize(loop));
  }

  /** receive_task gets stuck in the buffer it allocates: whatever stream has one byte less than that ready
      at once is enqueued for ever at its first packet. */
  lemma StuckHappens(ps: seq<Packet>, buffer: seq<Byte>, once: bool)
    requires Fitting(Connection, ps) && ps != [] && |buffer| == MAX_PACKET_SIZE <= |Flatten(Frames(ps))| + 1
    ensures Run(Connection, buffer, 0, [Chunk(Flatten(Frames(ps))[..MAX_PACKET_SIZE - 1], once)]).status == Stuck
  {
    hide Sendable, OnWire, Sent, Splice, Drain, Received, Frames, Flatten, Roomy;
    var (fs, n) := (Frames(ps), MAX_PACKET_SIZE - 1);
    var chunk := Flatten(fs)[..n];
    var b := Received(buffer, 0, chunk);
    ReceivedFirst(buffer, chunk);
    NoRoomAtAll(fs, n);
    DrainStream(Connection, ps, b, n);
  }

  /** One recv that fills the empty buffer to the last byte is drained by the http loop; the same bytes in more than
      one are taken for a disconnect. */
  lemma FilledAtOnce(ps: seq<Packet>, buffer: seq<Byte>, bytes: seq<Byte>)
    requires Fitting(HttpService, ps) && 0 < |buffer| == |bytes| <= |Flatten(Frames(ps))| && bytes == Flatten(Frames(ps))[..|bytes|]
    ensures Run(HttpService, buffer, 0, [Chunk(bytes, false)]) == Drained([], buffer, 0, Full)
    ensures var r := Run(HttpService, buffer, 0, [Chunk(bytes, true)]);
            r.status == Waiting && r.packets == Arrived(ps)[..Whole(Frames(ps), |bytes|)]
  {
    hide Sendable, OnWire, Sent, Splice, Drain, Received, Frames, Flatten, Whole, Cut;
    ReceivedFirst(buffer, bytes);
    DrainStream(HttpService, ps, Received(buffer, 0, bytes), |bytes|);
    var d := Drain(HttpService, Received(buffer, 0, bytes), |bytes|);
    assert d.packets + [] == d.packets;
    assert [Chunk(bytes, true)][1..] == [];
  }

  /** What receive_task does with a single packet that is all it has buffered: it needs the same room again. */
  lemma OnePacket(p: Packet, buffer: seq<Byte>)
    requires Sendable(p) && |Sent(p)| <= |buffer| && buffer[..|Sent(p)|] == Sent(p)
    ensures var d := Drain(Connection, buffer, |Sent(p)|);
            if 2 * |Sent(p)| > |buffer| then d.status == Stuck else d.status == Waiting && d.packets == [OnWire(p)] && d.size == 0
  {
    hide Sent, OnWire, Next, Sendable, Drain, Shift;
    var n := |Sent(p)|;
    assert Sent(p) + [] == Sent(p) && Sent(p)[..n] == Sent(p);
    NextOfStream(Connection, p, [], buffer, n);
    DrainTurn(Connection, buffer, n, OnWire(p), n);
    DrainBelowFive(Connection, Shift(buffer, n, 0), 0);
    assert [OnWire(p)] + [] == [OnWire(p)];
  }

  /** The bytes after a receive: those buffered, the chunk, and what is left of five zeros. */
  lemma ReceivedAt(buffer: seq<Byte>, size: nat, chunk: seq<Byte>, i: nat)
    requires size + |chunk| <= |buffer| && i < |buffer|
    ensures Received(buffer, size, chunk)[i]
            == if size <= i < size + |chunk| then chunk[i - size]
               else if size <= i < size + 5 && size + 5 <= |buffer| then 0 else buffer[i]
  {
  }

  /** A table packet is never taken off, by either loop. */
  lemma TablePacket(loop: Loop, rest: seq<Byte>)
    ensures Next(loop, [0xef, 0xab, 5, 0, 0] + rest, 5 + |rest|) == Incomplete
  {
  }

  lemma ReceivedFirst(buffer: seq<Byte>, chunk: seq<Byte>)
    requires |chunk| <= |buffer|
    ensures Received(buffer, 0, chunk)[..|chunk|] == chunk
  {
  }

  lemma NoRoomAtAll(fs: seq<seq<Byte>>, size: nat)
    requires fs != [] && 5 <= |fs[0]| <= LARGEST <= size
    ensures !Roomy(fs, size, size + 1)
  {
  }

  lemma BehindNothing(d: Drained)
    ensures Behind([], d) == d
  {
    assert [] + d.packets == d.packets;
  }

  lemma BehindEnd(packets: seq<Packet>, buffer: seq<Byte>, size: nat)
    ensures Behind(packets, Drained([], buffer, size, Waiting)) == Drained(packets, buffer, size, Waiting)
  {
    assert packets + [] == packets;
  }

  lemma BehindOn(packets: seq<Packet>, p: Packet, d: Drained)
    ensures Behind(packets, Behind([p], d)) == Behind(packets + [p], d)
  {
    assert packets + ([p] + d.packets) == (packets + [p]) + d.packets;
  }

  /** receive_task has no room behind the buffered bytes for the packet it is about to take off. */
  predicate NoRoom(loop: Loop, max: nat, size: nat, used: nat) {
    loop.Connection? && size <= max && max - size < used
  }

  /** A turn that ends the loop. */
  lemma DrainStops(loop: Loop, packets: seq<Packet>, buffer: seq<Byte>, size: nat, parse: Parse)
    requires size <= |buffer| && parse == Next(loop, buffer, size)
    ensures parse.Incomplete? ==> Behind(packets, Drain(loop, buffer, size)) == Drained(packets, buffer, size, Waiting)
    ensures parse.Overrun? ==> Behind(packets, Drain(loop, buffer, size)) == Drained(packets, buffer, size, Broken)
    ensures parse.Parsed? && NoRoom(loop, |buffer|, size, parse.used) ==>
              Behind(packets, Drain(loop, buffer, size)) == Drained(packets + [parse.packet], buffer, size, Stuck)
    ensures parse.Parsed? && !NoRoom(loop, |buffer|, size, parse.used) && size < parse.used ==>
              Behind(packets, Drain(loop, buffer, size)) == Drained(packets + [parse.packet], buffer, size, Broken)
  {
    hide Next, Shift;
    assert packets + [] == packets;
  }

  /** A turn that goes on with the packet taken off. */
  lemma DrainGoesOn(loop: Loop, packets: seq<Packet>, buffer: seq<Byte>, size: nat, p: Packet, used: nat, rest: Drained)
    requires size <= |buffer| && Next(loop, buffer, size) == Parsed(p, used) && 5 <= used <= size
    requires !NoRoom(loop, |buffer|, size, used) && rest == Drain(loop, Shift(buffer, used, size - used), size - used)
    ensures Behind(packets, Drain(loop, buffer, size)) == Behind(packets + [p], rest)
  {
    DrainTurn(loop, buffer, size, p, used);
    hide Next, Shift, Drain, Behind;
    BehindOn(packets, p, rest);
  }

  // ---------------------------------------------------------------------------
  // The loops as they run on connection_event_data

  class ConnectionData {
    const buffer: array<Byte>
    var bufferSize: nat

    constructor (max: nat)
      ensures bufferSize == 0 && buffer.Length == max && fresh(buffer)
    {
      buffer := new Byte[max](_ => 0);
      bufferSize := 0;
    }

    ghost predicate Valid()
      reads this
    {
      bufferSize <= buffer.Length
    }

    /** Clears a header's worth of bytes, then receives a chunk behind the buffered ones. */
    method Receive(chunk: seq<Byte>)
      requires Valid() && bufferSize + |chunk| <= buffer.Length
      modifies this, buffer
      ensures Valid() && bufferSize == old(bufferSize) + |chunk|
      ensures buffer[..] == Received(old(buffer[..]), old(bufferSize), chunk)
    {
      if buffer.Length - bufferSize > 4 {
        var _ := PutBytes(buffer, bufferSize, [0, 0, 0, 0, 0]);
      }
      bufferSize := PutBytes(buffer, bufferSize, chunk);
    }

    /** memmove(buffer, buffer + used, left) */
    method MoveDown(used: nat, left: nat)
      requires used + left <= buffer.Length
      modifies buffer
      ensures buffer[..] == Shift(old(buffer[..]), used, left)
    {
      for i := 0 to left
        invariant forall j :: 0 <= j < i ==> buffer[j] == old(buffer[used + j])
        invariant forall j :: i <= j < buffer.Length ==> buffer[j] == old(buffer[j])
      {
        buffer[i] := buffer[used + i];
      }
    }

    /** The packet loop of connection::receive_task. Where the loop would enqueue the same packet for
        ever, the method stops and reports it. */
    method DrainConnection() returns (packets: seq<Packet>, status: Status)
      requires Valid()
      modifies this, buffer
      ensures Drained(packets, buffer[..], bufferSize, status) == Drain(Connection, old(buffer[..]), old(bufferSize))
    {
      hide Decode, Drain, Behind, Shift;
      packets := [];
      ghost var all := Drain(Connection, buffer[..], bufferSize);
      BehindNothing(all);
      while true
        invariant Valid()
        invariant all == Behind(packets, Drain(Connection, buffer[..], bufferSize))
        decreases bufferSize
      {
        var parse := Deserialize(buffer, bufferSize);
        ghost var b, n := buffer[..], bufferSize;
        DrainStops(Connection, packets, b, n, parse);
        if parse == Incomplete {
          return packets, Waiting;
        }
        if parse == Overrun {
          return packets, Broken;
        }
        UsedAtLeast(Connection, b, n);
        ghost var before := packets;
        packets := packets + [parse.packet];
        if buffer.Length - bufferSize < parse.used {
          return packets, Stuck;
        }
        if bufferSize < parse.used {
          return packets, Broken;
        }
        bufferSize := bufferSize - parse.used;
        MoveDown(parse.used, bufferSize);
        DrainGoesOn(Connection, before, b, n, parse.packet, parse.used, Drain(Connection, buffer[..], bufferSize));
        if bufferSize < 5 {
          DrainBelowFive(Connection, buffer[..], bufferSize);
          BehindEnd(packets, buffer[..], bufferSize);
          return packets, Waiting;
        }
      }
    }

    /** http_parser::deserialize: nothing but HTTP packets. */
    method NextHttp() returns (parse: Parse)
      requires Valid()
      ensures parse == Next(HttpService, buffer[..], bufferSize)
      ensures parse.Parsed? ==> parse.packet.Http?
    {
      hide TakeHttp, TakeRecent;
      if bufferSize >= 5 && buffer[2] != HTTP_SYNC {
        return Incomplete;
      }
      parse := Deserialize(buffer, bufferSize);
    }

    /** The packet loop of http_sync::listen_task: every action gets the name of the farm it came from. */
    method DrainHttp(farm: string) returns (actions: seq<HttpAction>, status: Status)
      requires Valid()
      modifies this, buffer
      ensures var d := Drain(HttpService, old(buffer[..]), old(bufferSize));
              && status == d.status && buffer[..] == d.buffer && bufferSize == d.size
              && FromFarm(farm, d.packets, actions)
    {
      hide Next, FromFarm, Drain, Behind, Shift;
      actions := [];
      ghost var packets: seq<Packet> := [];
      ghost var all := Drain(HttpService, buffer[..], bufferSize);
      FromFarmNone(farm);
      BehindNothing(all);
      while true
        invariant Valid()
        invariant all == Behind(packets, Drain(HttpService, buffer[..], bufferSize))
        invariant FromFarm(farm, packets, actions)
        decreases bufferSize
      {
        var parse := NextHttp();
        ghost var b, n := buffer[..], bufferSize;
        DrainStops(HttpService, packets, b, n, parse);
        if parse == Incomplete {
          return actions, Waiting;
        }
        if parse == Overrun {
          return actions, Broken;
        }
        UsedAtLeast(HttpService, b, n);
        FromFarmNext(farm, packets, actions, parse.packet);
        ghost var before := packets;
        packets := packets + [parse.packet];
        actions := actions + [parse.packet.request.(farm := farm)];
        if bufferSize < parse.used {
          return actions, Broken;
        }
        bufferSize := bufferSize - parse.used;
        if buffer.Length - bufferSize >= parse.used {
          MoveDown(parse.used, bufferSize);
        }
        DrainGoesOn(HttpService, before, b, n, parse.packet, parse.used, Drain(HttpService, buffer[..], bufferSize));
      }
    }
  }

  /** The actions of packets, under the name of the farm they came from. */
  ghost predicate FromFarm(farm: string, packets: seq<Packet>, actions: seq<HttpAction>) {
    && |actions| == |packets|
    && forall i :: 0 <= i < |actions| ==> packets[i].Http? && actions[i] == packets[i].request.(farm := farm)
  }

  lemma FromFarmNone(farm: string)
    ensures FromFarm(farm, [], [])
  {
  }

  lemma FromFarmNext(farm: string, packets: seq<Packet>, actions: seq<HttpAction>, p: Packet)
    requires FromFarm(farm, packets, actions) && p.Http?
    ensures FromFarm(farm, packets + [p], actions + [p.request.(farm := farm)])
  {
  }
}
