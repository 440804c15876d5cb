/**
 The session's list of received packets ("the brigade") and the three ways a channel
 consumes it: a read takes octets off the front of the matching packets, a flush unlinks
 matching packets, and freeing a channel unlinks every data packet addressed to it.
 */
module PacketQueue {
  import opened Bytes

  const MSG_CHANNEL_WINDOW_ADJUST: byte := 93
  const MSG_CHANNEL_DATA: byte := 94
  const MSG_CHANNEL_EXTENDED_DATA: byte := 95
  const MSG_CHANNEL_EOF: byte := 96
  const MSG_CHANNEL_CLOSE: byte := 97
  const MSG_CHANNEL_REQUEST: byte := 98

  const FLUSH_EXTENDED_DATA: i32 := -1
  const FLUSH_ALL: i32 := -2

  /** `len` may be shorter than the buffer, because a packet is truncated by shrinking its
      length; `head` is the offset of the first octet that nobody has read yet. */
  datatype RawPacket = RawPacket(data: bytes, len: nat, head: nat)

  type Packet = p: RawPacket | 1 <= p.len <= |p.data| && p.head <= p.len witness RawPacket([0], 1, 0)

  type Queue = seq<Packet>

  function Unread(p: Packet): bytes {
    p.data[p.head..p.len]
  }

  // ---- Which packets ----

  /** A choice of packets. The choices the code makes depend on the packet, not on how much of it was read. */
  type Pick = Packet -> bool

  ghost predicate Stable(f: Pick) {
    forall p: Packet, q: Packet :: p.data == q.data && p.len == q.len ==> f(p) == f(q)
  }

  /** A data or extended-data packet addressed to channel `id`. */
  predicate DataFor(id: u32, p: Packet) {
    && (p.data[0] == MSG_CHANNEL_DATA || p.data[0] == MSG_CHANNEL_EXTENDED_DATA)
    && p.len >= 5
    && NtohU32(p.data[1..]) == id
  }

  function AllData(id: u32): Pick {
    (p: Packet) => DataFor(id, p)
  }

  /** Who reads: a channel, one of its streams, and whether extended data is merged into stream 0. */
  datatype Reader = Reader(id: u32, stream: i32, merge: bool)

  predicate Selects(r: Reader, p: Packet) {
    && p.len >= 5
    && NtohU32(p.data[1..]) == r.id
    && if r.stream != 0 then
         p.data[0] == MSG_CHANNEL_EXTENDED_DATA && p.len >= 9 && r.stream == AsInt32(NtohU32(p.data[5..]))
       else
         p.data[0] == MSG_CHANNEL_DATA || (p.data[0] == MSG_CHANNEL_EXTENDED_DATA && r.merge)
  }

  function By(r: Reader): Pick {
    (p: Packet) => Selects(r, p)
  }

  /** Two readers never compete for a packet. */
  predicate Disjoint(r: Reader, s: Reader) {
    r.id != s.id || (r.stream != s.stream && (r.stream == 0 ==> !r.merge) && (s.stream == 0 ==> !s.merge))
  }

  lemma PicksAreStable(r: Reader, id: u32)
    ensures Stable(By(r)) && Stable(AllData(id))
  {
  }

  // ---- The contents of a queue ----

  /** The picked packets, in queue order. */
  function Picked(f: Pick, q: Queue): Queue {
    if q == [] then []
    else if f(q[0]) then [q[0]] + Picked(f, q[1..])
    else Picked(f, q[1..])
  }

  /** The packets that are not picked, in queue order. */
  function Others(f: Pick, q: Queue): Queue {
    if q == [] then []
    else if f(q[0]) then Others(f, q[1..])
    else [q[0]] + Others(f, q[1..])
  }

  /** The unread octets of the picked packets, concatenated. */
  function Stream(f: Pick, q: Queue): bytes {
    if q == [] then []
    else if f(q[0]) then Unread(q[0]) + Stream(f, q[1..])
    else Stream(f, q[1..])
  }

  /** The octets queued for channel `id`, on any of its streams. */
  function QueuedBytes(id: u32, q: Queue): nat {
    |Stream(AllData(id), q)|
  }

  /** What a read of at most `n` octets returns. */
  function Taken(f: Pick, q: Queue, n: nat): bytes {
    Stream(f, q)[..Min(n, |Stream(f, q)|)]
  }

  /** The queue a read of at most `n` octets leaves: drained packets are unlinked, the packet
      the buffer ran out in keeps its tail, and packets after that one are not visited. */
  function AfterRead(f: Pick, q: Queue, n: nat): Queue {
    if q == [] || n == 0 then q
    else if !f(q[0]) then [q[0]] + AfterRead(f, q[1..], n)
    else if n >= |Unread(q[0])| then AfterRead(f, q[1..], n - |Unread(q[0])|)
    else [q[0].(head := q[0].head + n)] + q[1..]
  }

  /** The contents of a queue with one more packet in front. */
  lemma ConsQueue(f: Pick, p: Packet, q: Queue)
    ensures Stream(f, [p] + q) == if f(p) then Unread(p) + Stream(f, q) else Stream(f, q)
    ensures Picked(f, [p] + q) == if f(p) then [p] + Picked(f, q) else Picked(f, q)
    ensures Others(f, [p] + q) == if f(p) then Others(f, q) else [p] + Others(f, q)
  {
  }

  lemma {:induction false} StreamOfConcat(f: Pick, a: Queue, b: Queue)
    ensures Stream(f, a + b) == Stream(f, a) + Stream(f, b)
  {
    if a == [] {
      assert a + b == b;
    } else {
      StreamOfConcat(f, a[1..], b);
      assert (a + b)[0] == a[0] && (a + b)[1..] == a[1..] + b;
      Regroup(Unread(a[0]), Stream(f, a[1..]), Stream(f, b));
    }
  }

  /** What a read takes from the first packet, and from the rest. */
  lemma TakenStep(f: Pick, q: Queue, n: nat)
    requires q != []
    ensures var size := |Unread(q[0])|;
            Taken(f, q, n) == if !f(q[0]) then Taken(f, q[1..], n)
                              else if n >= size then Unread(q[0]) + Taken(f, q[1..], n - size)
                              else Unread(q[0])[..n]
  {
  }

  // ---- One read ----

  /** A read that ends within the first packet splits that packet. */
  lemma CutSplitsStream(f: Pick, q: Queue, n: nat)
    requires Stable(f) && q != [] && f(q[0]) && 0 < n < |Unread(q[0])|
    ensures Taken(f, q, n) + Stream(f, AfterRead(f, q, n)) == Stream(f, q)
  {
    var first, rest := Unread(q[0]), Stream(f, q[1..]);
    assert Stream(f, q) == first + rest;
    var p := q[0].(head := q[0].head + n);
    assert Unread(p) == first[n..];
    assert AfterRead(f, q, n) == [p] + q[1..];
    ConsQueue(f, p, q[1..]);
    TakenStep(f, q, n);
    hide Stream, AfterRead, Taken, Unread;
    Regroup(first[..n], first[n..], rest);
    assert first[..n] + first[n..] == first;
  }

  /** A read splits the stream: what it returns, followed by what it leaves, is what there was. */
  lemma {:induction false} ReadSplitsStream(f: Pick, q: Queue, n: nat)
    requires Stable(f)
    ensures Taken(f, q, n) + Stream(f, AfterRead(f, q, n)) == Stream(f, q)
  {
    if q == [] || n == 0 {
      assert Taken(f, q, n) == [] && [] + Stream(f, q) == Stream(f, q);
    } else if !f(q[0]) {
      ReadSplitsStream(f, q[1..], n);
      ConsQueue(f, q[0], AfterRead(f, q[1..], n));
      assert Stream(f, q) == Stream(f, q[1..]);
    } else if n >= |Unread(q[0])| {
      var m := n - |Unread(q[0])|;
      ReadSplitsStream(f, q[1..], m);
      TakenStep(f, q, n);
      Regroup(Unread(q[0]), Taken(f, q[1..], m), Stream(f, AfterRead(f, q[1..], m)));
    } else {
      CutSplitsStream(f, q, n);
    }
  }

  /** Unlinking, replacing and passing the packet after the first `|done|` of a queue. */
  lemma Splice(done: Queue, rest: Queue, p: Packet)
    requires rest != []
    ensures var q, i := done + rest, |done|;
            && q[..i] + q[i + 1..] == done + rest[1..]
            && q[i := p] == (done + [p]) + rest[1..]
            && q == (done + [rest[0]]) + rest[1..]
  {
  }

  /** A read of `n` octets from `q` that has passed the packets `done` and collected `data`. */
  ghost predicate Reading(f: Pick, q: Queue, n: nat, done: Queue, rest: Queue, data: bytes) {
    && |data| <= n
    && done + AfterRead(f, rest, n - |data|) == AfterRead(f, q, n)
    && data + Taken(f, rest, n - |data|) == Taken(f, q, n)
  }

  /** One packet further: it is passed over, ... */
  lemma ReadingPasses(f: Pick, q: Queue, n: nat, done: Queue, rest: Queue, data: bytes)
    requires Reading(f, q, n, done, rest, data) && rest != [] && |data| < n && !f(rest[0])
    ensures Reading(f, q, n, done + [rest[0]], rest[1..], data)
  {
  }

  /** ... or drained, ... */
  lemma ReadingDrains(f: Pick, q: Queue, n: nat, done: Queue, rest: Queue, data: bytes)
    requires Reading(f, q, n, done, rest, data) && rest != [] && f(rest[0]) && |data| < n
    requires n - |data| >= |Unread(rest[0])|
    ensures Reading(f, q, n, done, rest[1..], data + Unread(rest[0]))
  {
    var p, want := rest[0], n - |data|;
    TakenStep(f, rest, want);
    Regroup(data, Unread(p), Taken(f, rest[1..], want - |Unread(p)|));
  }

  /** ... or cut where the buffer ends. */
  lemma ReadingCuts(f: Pick, q: Queue, n: nat, done: Queue, rest: Queue, data: bytes)
    requires Reading(f, q, n, done, rest, data) && rest != [] && f(rest[0]) && |data| < n
    requires n - |data| < |Unread(rest[0])|
    ensures var p, want := rest[0], n - |data|;
            Reading(f, q, n, done + [p.(head := p.head + want)], rest[1..], data + p.data[p.head..p.head + want])
  {
    var p, want := rest[0], n - |data|;
    var part, piece := p.(head := p.head + want), p.data[p.head..p.head + want];
    assert piece == Unread(p)[..want];
    TakenStep(f, rest, want);
    assert AfterRead(f, rest, want) == [part] + rest[1..];
    Regroup(done, [part], rest[1..]);
    assert AfterRead(f, rest[1..], 0) == rest[1..] && Taken(f, rest[1..], 0) == [] && data + piece + [] == data + piece;
  }

  /** When the buffer is full or nothing is left, the read is done. */
  lemma ReadingEnds(f: Pick, q: Queue, n: nat, done: Queue, rest: Queue, data: bytes)
    requires Reading(f, q, n, done, rest, data) && (rest == [] || |data| == n)
    ensures data == Taken(f, q, n) && done + rest == AfterRead(f, q, n)
  {
    assert data + [] == data;
  }

  lemma ReadingBegins(f: Pick, q: Queue, n: nat)
    ensures Reading(f, q, n, [], q, [])
  {
    assert [] + AfterRead(f, q, n) == AfterRead(f, q, n) && [] + Taken(f, q, n) == Taken(f, q, n);
  }

  lemma ReadingFits(f: Pick, q: Queue, n: nat, done: Queue, rest: Queue, data: bytes)
    requires Reading(f, q, n, done, rest, data)
    ensures |data| <= n
  {
  }

  /** A read leaves the stream of every disjoint choice alone. */
  lemma {:induction false} ReadKeepsDisjointStream(f: Pick, g: Pick, q: Queue, n: nat)
    requires Stable(g) && forall p: Packet :: f(p) ==> !g(p)
    ensures Stream(g, AfterRead(f, q, n)) == Stream(g, q)
  {
    if q == [] || n == 0 {
    } else if !f(q[0]) {
      ReadKeepsDisjointStream(f, g, q[1..], n);
      ConsQueue(g, q[0], AfterRead(f, q[1..], n));
    } else if n >= |Unread(q[0])| {
      ReadKeepsDisjointStream(f, g, q[1..], n - |Unread(q[0])|);
      assert Stream(g, q) == Stream(g, q[1..]);
    } else {
      ConsQueue(g, q[0].(head := q[0].head + n), q[1..]);
    }
  }

  /** A read takes exactly what it returns out of every wider choice. */
  lemma {:induction false} ReadCountsBytes(f: Pick, g: Pick, q: Queue, n: nat)
    requires Stable(f) && Stable(g) && forall p: Packet :: f(p) ==> g(p)
    ensures |Stream(g, q)| == |Stream(g, AfterRead(f, q, n))| + |Taken(f, q, n)|
  {
    if q == [] || n == 0 {
    } else if !f(q[0]) {
      ReadCountsBytes(f, g, q[1..], n);
      ConsQueue(g, q[0], AfterRead(f, q[1..], n));
    } else if n >= |Unread(q[0])| {
      ReadCountsBytes(f, g, q[1..], n - |Unread(q[0])|);
    } else {
      ConsQueue(g, q[0].(head := q[0].head + n), q[1..]);
    }
  }

  /** Packets outside the choice keep their order and their content, read offset included. */
  lemma {:induction false} ReadKeepsOthers(f: Pick, q: Queue, n: nat)
    requires Stable(f)
    ensures Others(f, AfterRead(f, q, n)) == Others(f, q)
  {
    if q == [] || n == 0 {
    } else if !f(q[0]) {
      ReadKeepsOthers(f, q[1..], n);
      ConsQueue(f, q[0], AfterRead(f, q[1..], n));
    } else if n >= |Unread(q[0])| {
      ReadKeepsOthers(f, q[1..], n - |Unread(q[0])|);
    } else {
      ConsQueue(f, q[0].(head := q[0].head + n), q[1..]);
    }
  }

  /** `left` is a suffix of `before`, except that its first packet may have been read further into. */
  predicate ConsumedSuffix(left: Queue, before: Queue) {
    && |left| <= |before|
    && (left != [] ==>
          var first := before[|before| - |left|];
          && left[1..] == before[|before| - |left| + 1..]
          && left[0].data == first.data && left[0].len == first.len && first.head <= left[0].head)
  }

  lemma ConsumedSuffixOfCons(left: Queue, p: Packet, before: Queue)
    requires ConsumedSuffix(left, before)
    ensures ConsumedSuffix(left, [p] + before)
  {
  }

  /** The picked packets a read leaves are a suffix of those it found, of which at most the
      first is consumed in part; a read that stops short of `n` octets leaves none. */
  lemma {:induction false} ReadLeavesSuffix(f: Pick, q: Queue, n: nat)
    requires Stable(f)
    ensures ConsumedSuffix(Picked(f, AfterRead(f, q, n)), Picked(f, q))
    ensures |Stream(f, q)| < n ==> Picked(f, AfterRead(f, q, n)) == []
  {
    if q == [] || n == 0 {
    } else if !f(q[0]) {
      ReadLeavesSuffix(f, q[1..], n);
      ConsQueue(f, q[0], AfterRead(f, q[1..], n));
    } else if n >= |Unread(q[0])| {
      var left := AfterRead(f, q[1..], n - |Unread(q[0])|);
      ReadLeavesSuffix(f, q[1..], n - |Unread(q[0])|);
      ConsumedSuffixOfCons(Picked(f, left), q[0], Picked(f, q[1..]));
    } else {
      var p := q[0].(head := q[0].head + n);
      ConsQueue(f, p, q[1..]);
      assert Picked(f, q)[1..] == Picked(f, q[1..]);
    }
  }

  /** A read of channel `r.id` and the octets queued for any channel. */
  lemma ReadCountsQueued(r: Reader, q: Queue, n: nat, id: u32)
    ensures QueuedBytes(id, q) ==
            QueuedBytes(id, AfterRead(By(r), q, n)) + if id == r.id then |Taken(By(r), q, n)| else 0
  {
  }

  // ---- Runs of one shared queue ----

  /** What can happen to the shared queue between two looks at it. */
  datatype QueueOp = Arrive(p: Packet) | Read(reader: Reader, n: nat)

  function QueueStep(q: Queue, op: QueueOp): Queue {
    match op
    case Arrive(p) => q + [p]
    case Read(r, n) => AfterRead(By(r), q, n)
  }

  function QueueRun(q: Queue, ops: seq<QueueOp>): Queue
    decreases |ops|
  {
    if ops == [] then q else QueueRun(QueueStep(q, ops[0]), ops[1..])
  }

  /** The octets one operation hands to reader `r`, and the octets it brings for `r`. */
  function Gives(r: Reader, q: Queue, op: QueueOp): bytes {
    if op.Read? && op.reader == r then Taken(By(r), q, op.n) else []
  }

  function Brings(r: Reader, op: QueueOp): bytes {
    if op.Arrive? && Selects(r, op.p) then Unread(op.p) else []
  }

  /** The octets handed to reader `r` over a run, in the order they were handed out. */
  function Delivered(r: Reader, q: Queue, ops: seq<QueueOp>): bytes
    decreases |ops|
  {
    if ops == [] then [] else Gives(r, q, ops[0]) + Delivered(r, QueueStep(q, ops[0]), ops[1..])
  }

  /** The octets that arrived for reader `r` over a run. */
  function Arrived(r: Reader, ops: seq<QueueOp>): bytes {
    if ops == [] then [] else Brings(r, ops[0]) + Arrived(r, ops[1..])
  }

  lemma StepSplitsStream(r: Reader, q: Queue, op: QueueOp)
    requires op.Read? ==> op.reader == r || Disjoint(op.reader, r)
    ensures Gives(r, q, op) + Stream(By(r), QueueStep(q, op)) == Stream(By(r), q) + Brings(r, op)
  {
    hide Taken, AfterRead, Unread;
    PicksAreStable(r, 0);
    match op
    case Arrive(p) =>
      assert [p] + [] == [p];
      StreamOfConcat(By(r), q, [p]);
      ConsQueue(By(r), p, []);
      assert Unread(p) + [] == Unread(p) && Stream(By(r), q) + [] == Stream(By(r), q);
    case Read(s, n) =>
      if s == r {
        ReadSplitsStream(By(r), q, n);
      } else {
        ReadKeepsDisjointStream(By(s), By(r), q, n);
      }
  }

  lemma Glue(given: bytes, later: bytes, end: bytes, left: bytes, arrived: bytes, before: bytes, brought: bytes)
    requires later + end == left + arrived && given + left == before + brought
    ensures (given + later) + end == before + (brought + arrived)
  {
    assert (given + later) + end == given + (later + end) == (given + left) + arrived;
    assert (before + brought) + arrived == before + (brought + arrived);
  }

  /** Reads are a FIFO byte stream. Whatever the read sizes, and however arrivals and the reads
      of other channels and streams are interleaved, the octets delivered to a reader followed by
      those still queued are the octets that were queued followed by those that arrived. */
  lemma {:induction false} ReadsAreFifo(r: Reader, q: Queue, ops: seq<QueueOp>)
    requires forall i :: 0 <= i < |ops| && ops[i].Read? ==> ops[i].reader == r || Disjoint(ops[i].reader, r)
    ensures Delivered(r, q, ops) + Stream(By(r), QueueRun(q, ops)) == Stream(By(r), q) + Arrived(r, ops)
    decreases |ops|
  {
    if ops != [] {
      var next := QueueStep(q, ops[0]);
      StepSplitsStream(r, q, ops[0]);
      ReadsAreFifo(r, next, ops[1..]);
      Glue(Gives(r, q, ops[0]), Delivered(r, next, ops[1..]), Stream(By(r), QueueRun(next, ops[1..])),
           Stream(By(r), next), Arrived(r, ops[1..]), Stream(By(r), q), Brings(r, ops[0]));
    }
  }

  // ---- Flush and free ----

  /** An extended-data packet of this channel too short to hold its type code. */
  predicate CutShort(id: u32, p: Packet) {
    DataFor(id, p) && p.data[0] == MSG_CHANNEL_EXTENDED_DATA && p.len < 9
  }

  predicate Flushes(id: u32, stream: i32, p: Packet)
    requires !CutShort(id, p)
  {
    && DataFor(id, p)
    && (|| stream == FLUSH_ALL
        || (&& p.data[0] == MSG_CHANNEL_EXTENDED_DATA
            && (stream == FLUSH_EXTENDED_DATA || stream == AsInt32(NtohU32(p.data[5..]))))
        || (p.data[0] == MSG_CHANNEL_DATA && stream == 0))
  }

  /** What a flush did to the queue: the octets it discarded, the octets it will refund, and
      whether it stopped at a packet that was cut short. */
  datatype Flushed = Flushed(left: Queue, discarded: nat, refund: nat, cut: bool)

  /** The refund adds `len - 13` for every packet, in 64-bit unsigned arithmetic. */
  function Flush(id: u32, stream: i32, q: Queue): (f: Flushed)
    ensures f.refund < 0x1_0000_0000_0000_0000
  {
    if q == [] then Flushed([], 0, 0, false)
    else if CutShort(id, q[0]) then Flushed(q, 0, 0, true)
    else
      var f := Flush(id, stream, q[1..]);
      if Flushes(id, stream, q[0]) then
        Flushed(f.left, f.discarded + |Unread(q[0])|, Wrap64(q[0].len - 13 + f.refund), f.cut)
      else
        f.(left := [q[0]] + f.left)
  }

  /** A flush of `q` that has passed the packets `done`, discarded `discarded` octets and counted `refund`. */
  ghost predicate Discarding(id: u32, stream: i32, q: Queue, done: Queue, rest: Queue, discarded: nat, refund: nat) {
    var f, g := Flush(id, stream, rest), Flush(id, stream, q);
    && done + f.left == g.left && discarded + f.discarded == g.discarded
    && Wrap64(refund + f.refund) == g.refund && f.cut == g.cut
  }

  /** One packet further: it is discarded, ... */
  lemma DiscardingTakes(id: u32, stream: i32, q: Queue, done: Queue, rest: Queue, discarded: nat, refund: nat)
    requires Discarding(id, stream, q, done, rest, discarded, refund)
    requires rest != [] && !CutShort(id, rest[0]) && Flushes(id, stream, rest[0])
    ensures var p := rest[0];
            Discarding(id, stream, q, done, rest[1..], discarded + |Unread(p)|, Wrap64(refund + (p.len - 13)))
  {
    hide Wrap64, CutShort, Flushes;
    RefundMoves(refund, rest[0].len - 13, Flush(id, stream, rest[1..]).refund);
  }

  /** ... or passed over, ... */
  lemma DiscardingPasses(id: u32, stream: i32, q: Queue, done: Queue, rest: Queue, discarded: nat, refund: nat)
    requires Discarding(id, stream, q, done, rest, discarded, refund)
    requires rest != [] && !CutShort(id, rest[0]) && !Flushes(id, stream, rest[0])
    ensures Discarding(id, stream, q, done + [rest[0]], rest[1..], discarded, refund)
  {
    hide Wrap64, CutShort, Flushes;
  }

  /** ... or the flush ends, at it or for want of packets. */
  lemma DiscardingEnds(id: u32, stream: i32, q: Queue, done: Queue, rest: Queue, discarded: nat, refund: nat)
    requires Discarding(id, stream, q, done, rest, discarded, refund) && refund < 0x1_0000_0000_0000_0000
    requires rest == [] || CutShort(id, rest[0])
    ensures Flush(id, stream, q) == Flushed(done + rest, discarded, refund, rest != [])
  {
  }

  lemma RefundMoves(a: int, b: int, c: int)
    ensures Wrap64(a + Wrap64(b + c)) == Wrap64(Wrap64(a + b) + c)
  {
    Wrap64OfWrap(b + c, a);
    Wrap64OfWrap(a + b, c);
  }

  /** A flush takes what it reports out of the channel's queued octets, and out of no other channel's. */
  lemma {:induction false} FlushCountsBytes(id: u32, stream: i32, q: Queue, other: u32)
    ensures var f := Flush(id, stream, q);
            QueuedBytes(other, q) == QueuedBytes(other, f.left) + if other == id then f.discarded else 0
  {
    if q != [] && !CutShort(id, q[0]) {
      FlushCountsBytes(id, stream, q[1..], other);
      if !Flushes(id, stream, q[0]) {
        ConsQueue(AllData(other), q[0], Flush(id, stream, q[1..]).left);
      }
    }
  }

  /** A flush that takes the whole of what a reader of the same channel would read. */
  predicate FlushTakes(which: i32, r: Reader) {
    || which == FLUSH_ALL
    || (which == FLUSH_EXTENDED_DATA && r.stream != 0)
    || (which == r.stream && (r.stream == 0 ==> !r.merge))
  }

  /** A flush that takes nothing of it. */
  predicate FlushSpares(which: i32, r: Reader) {
    && which != FLUSH_ALL && which != r.stream
    && (which == FLUSH_EXTENDED_DATA ==> r.stream == 0)
    && (which != 0 && r.stream == 0 ==> !r.merge)
  }

  /** A flush empties the chosen stream, unless it stops at a packet that was cut short, and leaves the other
      streams, and all those of other channels, as they are. */
  lemma {:induction false} FlushEmpties(id: u32, which: i32, q: Queue, r: Reader)
    ensures var f := Flush(id, which, q);
            && (r.id == id && FlushTakes(which, r) && !f.cut ==> Stream(By(r), f.left) == [])
            && (r.id != id || FlushSpares(which, r) ==> Stream(By(r), f.left) == Stream(By(r), q))
  {
    if q != [] && !CutShort(id, q[0]) {
      FlushEmpties(id, which, q[1..], r);
      var f := Flush(id, which, q[1..]);
      FlushesOrNot(id, which, q[0], r);
      if !Flushes(id, which, q[0]) {
        ConsQueue(By(r), q[0], f.left);
      }
    }
  }

  lemma FlushesOrNot(id: u32, which: i32, p: Packet, r: Reader)
    requires !CutShort(id, p)
    ensures r.id == id && FlushTakes(which, r) && Selects(r, p) ==> Flushes(id, which, p)
    ensures (r.id != id || FlushSpares(which, r)) && Selects(r, p) ==> !Flushes(id, which, p)
  {
  }

  /** Choices that agree on every packet. */
  lemma {:induction false} SameChoice(f: Pick, g: Pick, q: Queue, n: nat)
    requires forall p: Packet :: f(p) == g(p)
    ensures Stream(f, q) == Stream(g, q) && AfterRead(f, q, n) == AfterRead(g, q, n) && Taken(f, q, n) == Taken(g, q, n)
  {
    if q != [] {
      SameChoice(f, g, q[1..], n);
      if f(q[0]) && n >= |Unread(q[0])| {
        SameChoice(f, g, q[1..], n - |Unread(q[0])|);
      }
    }
  }

  /** Unlinking every packet of a choice leaves nothing of it, and takes nothing from a disjoint choice. */
  lemma {:induction false} UnlinkIsExact(f: Pick, g: Pick, q: Queue)
    requires forall p: Packet :: f(p) ==> !g(p)
    ensures Stream(f, Others(f, q)) == [] && Picked(f, Others(f, q)) == []
    ensures Stream(g, Others(f, q)) == Stream(g, q) && Picked(g, Others(f, q)) == Picked(g, q)
  {
    if q != [] {
      UnlinkIsExact(f, g, q[1..]);
      if !f(q[0]) {
        ConsQueue(f, q[0], Others(f, q[1..]));
        ConsQueue(g, q[0], Others(f, q[1..]));
      }
    }
  }

  /** A queue without its first packet of a choice. */
  function WithoutFirst(f: Pick, q: Queue): Queue {
    if q == [] then [] else if f(q[0]) then q[1..] else [q[0]] + WithoutFirst(f, q[1..])
  }

  /** Unlinking the first packet of a narrower choice makes no difference to the others. */
  lemma {:induction false} OthersOfWithoutFirst(f: Pick, g: Pick, q: Queue)
    requires forall p: Packet :: g(p) ==> f(p)
    ensures Others(f, WithoutFirst(g, q)) == Others(f, q)
  {
    if q != [] && !g(q[0]) {
      OthersOfWithoutFirst(f, g, q[1..]);
      ConsQueue(f, q[0], WithoutFirst(g, q[1..]));
    }
  }

  lemma {:induction false} WithoutFirstAt(f: Pick, q: Queue, i: nat)
    requires i < |q| && f(q[i]) && forall j :: 0 <= j < i ==> !f(q[j])
    ensures WithoutFirst(f, q) == q[..i] + q[i + 1..]
  {
    if i > 0 {
      WithoutFirstAt(f, q[1..], i - 1);
      assert q[..i] == [q[0]] + q[1..][..i - 1];
    }
  }

  lemma {:induction false} NoneToUnlink(f: Pick, q: Queue)
    requires forall p :: p in q ==> !f(p)
    ensures Others(f, q) == q
  {
    if q != [] {
      assert !f(q[0]);
      NoneToUnlink(f, q[1..]);
    }
  }

  /** Every packet of a queue is of a kind. */
  ghost predicate AllHold(f: Pick, q: Queue) {
    forall p :: p in q ==> f(p)
  }

  /** Consuming a queue, in any of the three ways, leaves it of the kind it was. */
  lemma {:induction false} ConsumingKeepsAll(f: Pick, g: Pick, q: Queue, n: nat, id: u32, stream: i32)
    requires Stable(f) && AllHold(f, q)
    ensures AllHold(f, AfterRead(g, q, n)) && AllHold(f, Others(g, q)) && AllHold(f, Flush(id, stream, q).left)
  {
    if q != [] {
      assert f(q[0]) && AllHold(f, q[1..]);
      ConsumingKeepsAll(f, g, q[1..], n, id, stream);
      if g(q[0]) && n >= |Unread(q[0])| {
        ConsumingKeepsAll(f, g, q[1..], n - |Unread(q[0])|, id, stream);
      } else if g(q[0]) && n > 0 {
        assert f(q[0].(head := q[0].head + n));
      }
    }
  }
}
