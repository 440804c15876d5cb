/**
 Reading: the octets a channel hands to its reader are the payloads of the peer's messages, as section 5.2
 of RFC 4254 lays them out, in the order in which they arrived.
 */
module ChannelReading {
  import opened Bytes
  import opened PacketQueue
  import opened ChannelSpec
  import opened ChannelTraces
  import opened ChannelSteps
  import opened ChannelRuns
  import opened ChannelReceiving

  // ---- One message ----

  /** What the code takes from a well-formed message is what the message carries. */
  lemma MessageMeans(m: Message, k: u32)
    ensures match Decode(m)
            case Data(recipient, _, payload) => IsDataMessage(m) && SizeIn(m) == |payload| && (IsFor(k, m) <==> k == recipient)
            case WindowAdjust(recipient, count) => SizeIn(m) == 0 && GrantIn(m) == count && !EndsIn(m) && (IsFor(k, m) <==> k == recipient)
            case Eof(recipient) => SizeIn(m) == 0 && GrantIn(m) == 0 && EndsIn(m) && !ClosesIn(m) && (IsFor(k, m) <==> k == recipient)
            case Close(recipient) => SizeIn(m) == 0 && GrantIn(m) == 0 && ClosesIn(m) && (IsFor(k, m) <==> k == recipient)
            case ChannelRequest(recipient, _) => SizeIn(m) == 0 && GrantIn(m) == 0 && !EndsIn(m) && (Demands(k, m) ==> k == recipient)
            case _ => true
  {
  }

  /** What a well-formed message does to the channel it is for: data is counted and, unless the window is used up,
      revokes an EOF; an adjustment widens the send window, in 32 bits; EOF marks the end of the peer's data, and
      CLOSE marks that and its own. */
  lemma ReceiveMeans(c: Chan, m: Message)
    ensures var d := ChannelSpec.Receive(c, m);
            match Decode(m)
            case Data(_, _, _) =>
              && d.readAvail == c.readAvail + KeptIn(c, m) && d.local == c.local && d.remote.close == c.remote.close
              && (d.remote.eof <==> c.remote.eof && c.remote.window <= c.readAvail)
            case WindowAdjust(_, count) =>
              d == c.(local := c.local.(window := d.local.window)) && d.local.window == Wrap32(c.local.window + count)
            case Eof(_) => d == c.(local := d.local, remote := c.remote.(eof := true))
            case Close(_) => d == c.(local := d.local, remote := c.remote.(eof := true, close := true))
            case _ => true
  {
  }

  /** Of a data message, as much is kept as fits the packet size and the window, and no more. */
  lemma KeptIsMost(c: Chan, m: Message, n: nat)
    requires IsDataMessage(m)
    ensures n <= KeptIn(c, m) <==>
            n == 0 || (n <= SizeIn(m) && n <= c.remote.packetSize && c.readAvail + n <= c.remote.window)
  {
  }

  /** Who hears a message: plain data goes to stream 0; extended data to its own stream, and to stream 0 in
      merge mode. */
  predicate Hears(r: Reader, kind: byte, stream: i32) {
    if kind == MSG_CHANNEL_DATA then r.stream == 0
    else if r.stream == 0 then r.merge
    else r.stream == stream
  }

  /** What a message brings for a reader. */
  function PayloadFor(r: Reader, m: bytes): bytes {
    match Decode(m)
    case Data(recipient, stream, payload) => if recipient == r.id && Hears(r, m[0], stream) then payload else []
    case _ => []
  }

  /** Whoever reads stream 0 hears extended data once it is merged, and no more once it is kept apart again; whoever
      reads its own stream hears it either way. */
  lemma MergingMeans(w: World, k: u32, on: bool, m: Message)
    requires k in w.chans && Decode(m).Data? && Decode(m).recipient == k && m[0] == MSG_CHANNEL_EXTENDED_DATA && Decode(m).stream != 0
    ensures var w', payload := Apply(w, k, SetMerge(w.chans[k], on)), Decode(m).payload;
            && PayloadFor(Reader(k, 0, w'.chans[k].merge), m) == (if on then payload else [])
            && PayloadFor(Reader(k, Decode(m).stream, w'.chans[k].merge), m) == payload
            && w' == w.(chans := w.chans[k := w.chans[k].(merge := on)])
  {
  }

  lemma StreamOfOne(r: Reader, p: Packet)
    ensures Stream(By(r), [p]) == if Selects(r, p) then Unread(p) else []
  {
    ConsQueue(By(r), p, []);
    assert [p] + [] == [p] && Unread(p) + [] == Unread(p);
  }

  /** What a reader finds of a queued message is the payload, up to what was kept, if it is for the reader, and
      nothing otherwise. */
  lemma PayloadIsQueued(c: Chan, m: Message, r: Reader)
    requires Decode(m).Data?
    ensures var payload := PayloadFor(r, m);
            Stream(By(r), QueuedFor(c, m)) == payload[..Min(KeptIn(c, m), |payload|)]
  {
    if Keeps(c, m) {
      var p: Packet := QueuedFor(c, m)[0];
      StreamOfOne(r, p);
      assert QueuedFor(c, m) == [p];
      assert Unread(p) == Decode(m).payload[..KeptIn(c, m)];
    }
  }

  lemma ForOthers(c: Chan, m: Message, r: Reader)
    requires |m| >= 5 && (NtohU32(m[1..]) != r.id || !IsDataMessage(m))
    ensures Stream(By(r), QueuedFor(c, m)) == []
  {
    if Keeps(c, m) {
      StreamOfOne(r, QueuedFor(c, m)[0]);
    }
  }

  // ---- What the ledger says ----

  predicate WellFormed(m: Message) {
    IsDataMessage(m) ==> Decode(m).Data?
  }

  /** The peer lays out its data messages as section 5.2 of RFC 4254 says. */
  ghost predicate Conforming(ledger: Ledger, k: u32) {
    forall i :: 0 <= i < |ledger| && ledger[i].Received? && ledger[i].id == k ==> WellFormed(ledger[i].message)
  }

  function Brought(r: Reader, e: Entry): bytes {
    if e.Received? && e.id == r.id then
      var payload := PayloadFor(r, e.message);
      payload[..Min(e.kept, |payload|)]
    else []
  }

  /** The payloads that arrived for a reader, each up to what was kept of it. */
  function KeptFor(r: Reader, ledger: Ledger): bytes {
    if ledger == [] then [] else KeptFor(r, ledger[..|ledger| - 1]) + Brought(r, ledger[|ledger| - 1])
  }

  lemma {:induction false} KeptForConcat(r: Reader, a: Ledger, b: Ledger)
    ensures KeptFor(r, a + b) == KeptFor(r, a) + KeptFor(r, b)
    decreases |b|
  {
    if b == [] {
      assert a + b == a;
    } else {
      KeptForConcat(r, a, b[..|b| - 1]);
      assert (a + b)[..|a + b| - 1] == a + b[..|b| - 1];
      Regroup(KeptFor(r, a), KeptFor(r, b[..|b| - 1]), Brought(r, b[|b| - 1]));
    }
  }

  // ---- What flows to a reader ----

  /** From `w` to `w'`, a reader was given `out`; that and what is queued for it now are what was queued for it
      before and the payloads that arrived meanwhile. */
  ghost predicate Flows(w: World, w': World, r: Reader, out: bytes) {
    && |w.ledger| <= |w'.ledger| && w'.ledger[..|w.ledger|] == w.ledger
    && var since := w'.ledger[|w.ledger|..];
       Conforming(since, r.id) ==> out + Stream(By(r), w'.packets) == Stream(By(r), w.packets) + KeptFor(r, since)
  }

  lemma ConformingParts(a: Ledger, b: Ledger, k: u32)
    requires Conforming(a + b, k)
    ensures Conforming(a, k) && Conforming(b, k)
  {
    hide WellFormed;
    assert forall i :: 0 <= i < |a| ==> a[i] == (a + b)[i];
    assert forall i :: 0 <= i < |b| ==> b[i] == (a + b)[|a| + i];
  }

  lemma LedgerParts(l: Ledger, l1: Ledger, l2: Ledger)
    requires |l| <= |l1| <= |l2| && l1[..|l|] == l && l2[..|l1|] == l1
    ensures l2[..|l|] == l && l2[|l|..] == l1[|l|..] + l2[|l1|..]
  {
  }

  lemma FlowsGlue(a: bytes, b: bytes, q: bytes, q1: bytes, q2: bytes, k1: bytes, k2: bytes)
    requires a + q1 == q + k1 && b + q2 == q1 + k2
    ensures (a + b) + q2 == q + (k1 + k2)
  {
    Regroup(a, b, q2);
    Regroup(a, q1, k2);
    Regroup(q, k1, k2);
  }

  lemma FlowsOn(w: World, w1: World, w2: World, r: Reader, a: bytes, b: bytes)
    requires Flows(w, w1, r, a) && Flows(w1, w2, r, b)
    ensures Flows(w, w2, r, a + b)
  {
    hide KeptFor, Stream, Conforming, By;
    var first, second := w1.ledger[|w.ledger|..], w2.ledger[|w1.ledger|..];
    LedgerParts(w.ledger, w1.ledger, w2.ledger);
    if Conforming(first + second, r.id) {
      ConformingParts(first, second, r.id);
      KeptForConcat(r, first, second);
      FlowsGlue(a, b, Stream(By(r), w.packets), Stream(By(r), w1.packets), Stream(By(r), w2.packets), KeptFor(r, first), KeptFor(r, second));
    }
  }

  lemma FlowsQuietly(w: World, w1: World, w2: World, r: Reader)
    requires Flows(w, w1, r, []) && Flows(w1, w2, r, [])
    ensures Flows(w, w2, r, [])
  {
    hide Flows;
    var none: bytes := [];
    assert none + none == none;
    FlowsOn(w, w1, w2, r, none, none);
  }

  lemma SameFlows(w: World, w': World, r: Reader)
    requires w'.ledger == w.ledger && Stream(By(r), w'.packets) == Stream(By(r), w.packets)
    ensures Flows(w, w', r, [])
  {
    assert w'.ledger[|w.ledger|..] == [];
    var q := Stream(By(r), w.packets);
    assert [] + q == q == q + [];
  }

  lemma EntriesBring(r: Reader, c: Chan, k: u32, m: Message)
    ensures KeptFor(r, EntriesFor(c, k, m)) == Brought(r, Received(k, m, KeptIn(c, m)))
  {
    var e, g := Received(k, m, KeptIn(c, m)), Granted(k, GrantIn(m));
    assert EntriesFor(c, k, m)[..1] == [e] && [e][..0] == [];
    assert KeptFor(r, [e]) == KeptFor(r, []) + Brought(r, e) == Brought(r, e);
    assert KeptFor(r, EntriesFor(c, k, m)) == KeptFor(r, [e]) + Brought(r, g) == Brought(r, e);
  }

  /** One message for channel `k`. */
  lemma QueuedIsBrought(c: Chan, k: u32, m: Message, r: Reader)
    requires IsFor(k, m) && (k == r.id ==> WellFormed(m))
    ensures Stream(By(r), QueuedFor(c, m)) == Brought(r, Received(k, m, KeptIn(c, m)))
  {
    if k == r.id && IsDataMessage(m) {
      PayloadIsQueued(c, m, r);
    } else {
      ForOthers(c, m, r);
    }
  }

  lemma AddToFlows(w: World, k: u32, m: Message, r: Reader)
    requires k in w.chans && IsFor(k, m)
    ensures Flows(w, AddTo(w, k, m), r, [])
  {
    hide Decode, Stream, KeptFor, By;
    var c, w' := w.chans[k], AddTo(w, k, m);
    var since := w'.ledger[|w.ledger|..];
    assert since == EntriesFor(c, k, m);
    if Conforming(since, r.id) {
      assert since[0] == Received(k, m, KeptIn(c, m));
      QueuedIsBrought(c, k, m, r);
      EntriesBring(r, c, k, m);
      StreamOfConcat(By(r), w.packets, QueuedFor(c, m));
      assert [] + Stream(By(r), w'.packets) == Stream(By(r), w'.packets);
    }
  }

  lemma AddFlows(w: World, m: Message, r: Reader)
    ensures Flows(w, PacketAdd(w, m), r, [])
  {
    hide Flows, Stream, Decode;
    var k := if |m| >= 5 then NtohU32(m[1..]) else 0;
    var w1 := w.(heard := w.heard + [m]);
    var w' := PacketAdd(w, m);
    if IsFor(k, m) && k in w.chans {
      SameFlows(w, w1, r);
      AddToFlows(w1, k, m, r);
      FlowsQuietly(w, w1, w', r);
    } else if WantsReply(m) || HeadOf(m[0]) > 0 || HandledAtOnce(m[0]) {
      SameFlows(w, w', r);
    } else {
      var p := RawPacket(m, |m|, 0);
      StreamOfOne(r, p);
      StreamOfConcat(By(r), w.packets, [p]);
      assert Stream(By(r), w.packets) + [] == Stream(By(r), w.packets);
      SameFlows(w, w', r);
    }
  }

  lemma {:induction false} DrainFlows(w: World, arrivals: seq<Message>, r: Reader)
    ensures Flows(w, Drain(w, arrivals), r, [])
    decreases |arrivals|
  {
    hide Flows, PacketAdd;
    if arrivals == [] {
      SameFlows(w, w, r);
    } else {
      AddFlows(w, arrivals[0], r);
      DrainFlows(PacketAdd(w, arrivals[0]), arrivals[1..], r);
      FlowsQuietly(w, PacketAdd(w, arrivals[0]), Drain(w, arrivals), r);
    }
  }

  lemma {:induction false} AwaitFlows(w: World, k: u32, arrivals: seq<Message>, readEnd: ReadEnd, r: Reader)
    requires k in w.chans
    ensures Flows(w, AwaitClose(w, k, arrivals, readEnd).w, r, [])
    decreases |arrivals|
  {
    hide Flows, PacketAdd;
    SameFlows(w, w, r);
    if !w.chans[k].remote.close && arrivals != [] {
      var w1 := PacketAdd(w, arrivals[0]);
      AddFlows(w, arrivals[0], r);
      if arrivals[0][0] == 0 {
        AwaitFlows(w1, k, arrivals[1..], readEnd, r);
        FlowsQuietly(w, w1, AwaitClose(w1, k, arrivals[1..], readEnd).w, r);
      }
    }
  }

  // ---- What a call does to a reader ----

  /** An act, a drain or neither, and an act. */
  lemma QuietFlows(w: World, w1: World, w2: World, r: Reader)
    requires Flows(w, w1, r, []) && w2.packets == w1.packets && w2.ledger == w1.ledger
    ensures Flows(w, w2, r, [])
  {
    hide Stream, KeptFor;
  }

  lemma DrainedFlows(w: World, w1: World, arrivals: seq<Message>, w2: World, r: Reader)
    requires w1.packets == w.packets && w1.ledger == w.ledger
    requires w2.packets == Drain(w1, arrivals).packets && w2.ledger == Drain(w1, arrivals).ledger
    ensures Flows(w, w2, r, [])
  {
    hide Flows, Drain;
    SameFlows(w, w1, r);
    DrainFlows(w1, arrivals, r);
    FlowsQuietly(w, w1, Drain(w1, arrivals), r);
    QuietFlows(w, Drain(w1, arrivals), w2, r);
  }

  /** The reader of a channel's stream. */
  function ReaderOf(w: World, k: u32, stream: i32): Reader
    requires k in w.chans
  {
    Reader(k, stream, w.chans[k].merge)
  }

  /** Readers that read the same. */
  predicate SameReader(r: Reader, s: Reader) {
    r.id == s.id && r.stream == s.stream && (r.stream == 0 ==> r.merge == s.merge)
  }

  lemma TakeFlows(w: World, k: u32, stream: i32, buflen: nat, readEnd: ReadEnd, r: Reader)
    requires k in w.chans && w.chans[k].local.id == k
    requires SameReader(ReaderOf(w, k, stream), r) || Disjoint(ReaderOf(w, k, stream), r)
    ensures var o := ReadTake(w, k, stream, buflen, readEnd);
            Flows(w, o.w, r, if SameReader(ReaderOf(w, k, stream), r) then o.data else [])
  {
    hide Stream, AfterRead, Taken, Brought;
    var s := ReaderOf(w, k, stream);
    var o := ReadTake(w, k, stream, buflen, readEnd);
    assert o.w.ledger[|w.ledger|..] == [] && KeptFor(r, []) == [];
    PicksAreStable(s, 0);
    PicksAreStable(r, 0);
    if SameReader(s, r) {
      SameChoice(By(s), By(r), w.packets, buflen);
      ReadSplitsStream(By(r), w.packets, buflen);
      assert Stream(By(r), w.packets) + [] == Stream(By(r), w.packets);
    } else {
      ReadKeepsDisjointStream(By(s), By(r), w.packets, buflen);
      SameFlows(w, o.w, r);
    }
  }

  lemma PrepareFrame(c: Chan, buflen: nat, ans: SendAnswer)
    ensures var d := ReadPrepare(c, buflen, ans).c; d.local.id == c.local.id && d.merge == c.merge
  {
  }

  lemma DrainFrame(w: World, arrivals: seq<Message>, k: u32)
    requires k in w.chans
    ensures var d := Drain(w, arrivals).chans[k]; d.local.id == w.chans[k].local.id && d.merge == w.chans[k].merge
  {
    hide Drain, Deliver;
    DrainDelivers(w, arrivals, k);
    DeliverFrame(k, ViewOf(w, k), arrivals);
    assert ViewOf(Drain(w, arrivals), k).c == Drain(w, arrivals).chans[k];
  }

  lemma ReadFlows(w: World, k: u32, stream: i32, buflen: nat, env: Env, r: Reader)
    requires k in w.chans && w.chans[k].local.id == k
    requires SameReader(ReaderOf(w, k, stream), r) || Disjoint(ReaderOf(w, k, stream), r)
    ensures var o := ReadCall(w, k, stream, buflen, env);
            Flows(w, o.w, r, if SameReader(ReaderOf(w, k, stream), r) then o.data else [])
  {
    hide Flows, Drain, ReadPrepare, ReadTake;
    var a := ReadPrepare(w.chans[k], buflen, env.send);
    var w1 := Apply(w, k, a);
    SameFlows(w, w1, r);
    if a.rc == 0 {
      var w2 := Drain(w1, env.arrivals);
      DrainedFlows(w, w1, env.arrivals, w2, r);
      if !Broken(env.readEnd) {
        PrepareFrame(w.chans[k], buflen, env.send);
        DrainFrame(w1, env.arrivals, k);
        TakeFlows(w2, k, stream, buflen, env.readEnd, r);
        var o := ReadTake(w2, k, stream, buflen, env.readEnd);
        var out := if SameReader(ReaderOf(w, k, stream), r) then o.data else [];
        FlowsOn(w, w2, o.w, r, [], out);
        assert [] + out == out;
      }
    }
  }

  /** What a read reports once its window is prepared and the transport drained: as much of its stream as fits the
      buffer; and if there is nothing, 0 once the peer has ended the stream or the transport will bring no more, and
      that it would block otherwise. */
  lemma ReadReports(w: World, k: u32, stream: i32, buflen: nat, env: Env)
    requires k in w.chans && w.chans[k].local.id == k && ReadPrepare(w.chans[k], buflen, env.send).rc == 0
    ensures var w2 := Drain(Apply(w, k, ReadPrepare(w.chans[k], buflen, env.send)), env.arrivals);
            var o, queued := ReadCall(w, k, stream, buflen, env), Stream(By(ReaderOf(w, k, stream)), w2.packets);
            var ended := w2.chans[k].remote.eof || w2.chans[k].remote.close || env.readEnd != ERROR_EAGAIN;
            if env.readEnd < 0 && env.readEnd != ERROR_EAGAIN then o.rc == env.readEnd && o.data == []
            else
              && o.data == queued[..Min(buflen, |queued|)]
              && o.rc == if o.data != [] then |o.data| else if ended then 0 else ERROR_EAGAIN
  {
    hide Drain, ReadPrepare, Stream;
    var w1 := Apply(w, k, ReadPrepare(w.chans[k], buflen, env.send));
    PrepareFrame(w.chans[k], buflen, env.send);
    DrainFrame(w1, env.arrivals, k);
  }

  lemma FlushFlows(w: World, k: u32, which: i32, env: Env, r: Reader)
    requires k in w.chans && w.chans[k].local.id == k
    requires k != r.id || w.chans[k].flush.state != Idle || FlushSpares(which, r)
    ensures Flows(w, FlushCall(w, k, which, env).w, r, [])
  {
    hide FlushAct, Flush, Stream;
    FlushEmpties(k, which, w.packets, r);
    SameFlows(w, FlushCall(w, k, which, env).w, r);
  }

  lemma ShutFlows(w: World, k: u32, env: Env, r: Reader)
    requires k in w.chans
    ensures Flows(w, CloseCall(w, k, env).w, r, [])
  {
    hide Flows, AwaitClose, SendClose;
    SameFlows(w, w, r);
    var w' := CloseCall(w, k, env).w;
    if w.chans[k].local.close {
      QuietFlows(w, w, w', r);
    } else {
      var e := EofBeforeClose(w.chans[k], env.eofSend);
      var w1 := Apply(w, k, e);
      QuietFlows(w, w, w1, r);
      if e.rc != ERROR_EAGAIN {
        var a := SendClose(e.c, e.rc, env.send);
        var w2 := Apply(w1, k, a);
        QuietFlows(w, w, w2, r);
        if a.c.close.state == Sent && a.rc == 0 && env.connected {
          AwaitFlows(w2, k, env.arrivals, env.readEnd, r);
          var w3 := AwaitClose(w2, k, env.arrivals, env.readEnd).w;
          FlowsQuietly(w, w2, w3, r);
          QuietFlows(w, w3, w', r);
        } else {
          QuietFlows(w, w2, w', r);
        }
      }
    }
  }

  lemma RemoveFlows(w: World, w1: World, k: u32, r: Reader)
    requires k in w1.chans && w1.chans[k].local.id == k && k != r.id && Flows(w, w1, r, [])
    ensures Flows(w, Remove(w1, k), r, [])
  {
    hide Flows;
    UnlinkIsExact(AllData(k), By(r), w1.packets);
    SameFlows(w1, Remove(w1, k), r);
    FlowsQuietly(w, w1, Remove(w1, k), r);
  }

  lemma StartFlows(w: World, op: Op, r: Reader)
    requires Callable(w, op) && op.call.Start?
    ensures Flows(w, Step(w, op), r, [])
  {
    hide Flows, Drain, SendStart, AwaitStart;
    var k := op.k;
    SameFlows(w, w, r);
    if w.chans[k].process.state != End {
      var w1 := Apply(w, k, SendStart(w.chans[k], op.call.request, op.call.message, op.env.send));
      QuietFlows(w, w, w1, r);
      if w1.chans[k].process.state == Sent {
        DrainedFlows(w, w1, op.env.arrivals, Drain(w1, op.env.arrivals), r);
        QuietFlows(w, Drain(w1, op.env.arrivals), StartReply(w1, k, op.env).w, r);
      } else {
        QuietFlows(w, w1, StartReply(w1, k, op.env).w, r);
      }
    }
  }

  lemma OpenTryFlows(w: World, k: u32, extra: bytes, env: Env, r: Reader)
    requires k in w.chans
    ensures Flows(w, OpenTry(w, k, extra, env).w, r, [])
  {
    hide Flows, Drain, SendOpen, AwaitOpen;
    var a := SendOpen(w.chans[k], extra, env.send);
    var w1 := Apply(w, k, a);
    SameFlows(w, w1, r);
    if a.rc == 0 {
      DrainedFlows(w, w1, env.arrivals, OpenTry(w, k, extra, env).w, r);
    }
  }

  lemma WriteFlows(w: World, op: Op, r: Reader)
    requires Callable(w, op) && op.call.Write?
    ensures Flows(w, Step(w, op), r, [])
  {
    hide Flows, Drain, SendParked, ChannelSpec.Park;
    SameFlows(w, w, r);
    var c, w' := w.chans[op.k], Step(w, op);
    if c.write.state == Idle && !c.local.close && !c.local.eof {
      DrainedFlows(w, w, op.env.arrivals, w', r);
    } else {
      QuietFlows(w, w, w', r);
    }
  }

  lemma WorkFlows(w: World, op: Op, r: Reader)
    requires Callable(w, op) && !op.call.Read? && !op.call.FlushStream?
    ensures Flows(w, Worked(w, op), r, [])
  {
    hide Flows, Drain, CloseCall, OpenTry, StartCall, WriteCall;
    SameFlows(w, w, r);
    match op.call
    case Write(_, _) => WriteFlows(w, op, r);
    case AdjustWindow(_, _) => QuietFlows(w, w, Worked(w, op), r);
    case Merging(_) => QuietFlows(w, w, Worked(w, op), r);
    case EndOfData => QuietFlows(w, w, Worked(w, op), r);
    case Shut => ShutFlows(w, op.k, op.env, r);
    case Free => ShutFlows(w, op.k, op.env, r);
    case Start(_, _) => StartFlows(w, op, r);
    case Open(extra) => OpenTryFlows(w, op.k, extra, op.env, r);
    case Receive => DrainFlows(w, op.env.arrivals, r);
  }

  /** A call that takes nothing away from a reader but by reading it: no other reader of its channel competes with
      it, no flush chooses its stream, and the channel stays in the session. */
  ghost predicate Undisturbed(w: World, op: Op, r: Reader)
    requires Callable(w, op)
  {
    op.k == r.id ==>
      match op.call
      case Read(from, _) => SameReader(ReaderOf(w, op.k, from), r) || Disjoint(ReaderOf(w, op.k, from), r)
      case FlushStream(which) => w.chans[op.k].flush.state != Idle || FlushSpares(which, r)
      case _ => op.k in Step(w, op).chans
  }

  /** What a call hands to a reader. */
  function Given(w: World, op: Op, r: Reader): bytes
    requires Callable(w, op)
  {
    if op.call.Read? && SameReader(ReaderOf(w, op.k, op.call.from), r) then
      ReadCall(w, op.k, op.call.from, op.call.buflen, op.env).data
    else []
  }

  lemma WorkedKeepsId(w: World, op: Op)
    requires Callable(w, op) && w.chans[op.k].local.id == op.k
    ensures Worked(w, op).chans[op.k].local.id == op.k
  {
    var h := WorkIsLocal(w, op);
    OwnStepKeepsId(ViewOf(w, op.k), op, h);
    assert ViewOf(Worked(w, op), op.k).c == Worked(w, op).chans[op.k];
  }

  lemma StepFlows(w: World, op: Op, r: Reader)
    requires Callable(w, op) && Keyed(w) && Undisturbed(w, op, r)
    ensures Flows(w, Step(w, op), r, Given(w, op, r))
  {
    hide Flows, ReadCall, FlushCall, WriteCall, CloseCall, FreeCall, StartCall, OpenOn, OpenTry, Drain;
    if op.call.Read? {
      ReadFlows(w, op.k, op.call.from, op.call.buflen, op.env, r);
    } else if op.call.FlushStream? {
      FlushFlows(w, op.k, op.call.which, op.env, r);
    } else {
      WorkFlows(w, op, r);
      StepOfWorked(w, op);
      if op.k !in Step(w, op).chans {
        WorkedKeepsId(w, op);
        RemoveFlows(w, Worked(w, op), op.k, r);
      }
    }
  }

  // ---- Runs ----

  function RunGiven(w: World, moves: seq<Move>, r: Reader): bytes
    requires Legal(w, moves)
    decreases |moves|
  {
    if moves == [] then []
    else (if moves[0].Do? then Given(w, moves[0].op, r) else []) + RunGiven(Moved(w, moves[0]), moves[1..], r)
  }

  ghost predicate RunUndisturbed(w: World, moves: seq<Move>, r: Reader)
    requires Legal(w, moves)
    decreases |moves|
  {
    moves == [] || ((moves[0].Do? ==> Undisturbed(w, moves[0].op, r)) && RunUndisturbed(Moved(w, moves[0]), moves[1..], r))
  }

  lemma OpeningFlows(w: World, m: Move, r: Reader)
    requires Possible(w, m) && !m.Do?
    ensures Flows(w, Moved(w, m), r, [])
  {
    hide Stream;
    var w' := Moved(w, m);
    assert w'.ledger == w.ledger + [Opened(m.id)] && w'.ledger[|w.ledger|..] == [Opened(m.id)];
    assert [Opened(m.id)][..0] == [] && KeptFor(r, []) == [];
    assert KeptFor(r, [Opened(m.id)]) == [];
    var q := Stream(By(r), w.packets);
    assert [] + q == q == q + [];
  }

  lemma {:induction false} RunFlows(w: World, moves: seq<Move>, r: Reader)
    requires Legal(w, moves) && Grounded(w) && RunUndisturbed(w, moves, r)
    ensures Flows(w, Run(w, moves), r, RunGiven(w, moves, r))
    decreases |moves|
  {
    hide Flows, Grounded, Undisturbed, Given;
    if moves == [] {
      SameFlows(w, w, r);
    } else {
      var m, w1 := moves[0], Moved(w, moves[0]);
      var given := if m.Do? then Given(w, m.op, r) else [];
      assert Keyed(w) by {
        GroundedIsKeyed(w);
      }
      if m.Do? {
        StepFlows(w, m.op, r);
      } else {
        OpeningFlows(w, m, r);
      }
      MoveKeepsGrounded(w, m);
      RunFlows(w1, moves[1..], r);
      FlowsOn(w, w1, Run(w, moves), r, given, RunGiven(w1, moves[1..], r));
    }
  }

  lemma GroundedIsKeyed(w: World)
    requires Grounded(w)
    ensures Keyed(w)
  {
  }

  /** Reading, over every run from a session without channels in which nothing else takes from a reader: the octets
      the reader was given, followed by those still queued for it, are the payloads of the messages that arrived for
      its stream, in order, each up to what fitted the window. */
  lemma ReadsArePayloads(moves: seq<Move>, r: Reader)
    requires Legal(NoChannels(), moves) && RunUndisturbed(NoChannels(), moves, r)
    requires Conforming(Run(NoChannels(), moves).ledger, r.id)
    ensures var w := Run(NoChannels(), moves);
            RunGiven(NoChannels(), moves, r) + Stream(By(r), w.packets) == KeptFor(r, w.ledger)
  {
    var w := Run(NoChannels(), moves);
    RunFlows(NoChannels(), moves, r);
    assert w.ledger[0..] == w.ledger;
    assert Stream(By(r), []) == [] && [] + KeptFor(r, w.ledger) == KeptFor(r, w.ledger);
  }

  // ---- A peer that respects its credit ----

  /** The payloads that arrived for a reader. */
  function SentFor(r: Reader, ledger: Ledger): bytes {
    if ledger == [] then []
    else
      var last := ledger[|ledger| - 1];
      SentFor(r, ledger[..|ledger| - 1]) + if last.Received? && last.id == r.id then PayloadFor(r, last.message) else []
  }

  ghost predicate AllSane(ledger: Ledger) {
    forall i :: 0 <= i < |ledger| ==> Sane(ledger[i])
  }

  lemma MoveKeepsSane(w: World, m: Move)
    requires Possible(w, m) && AllSane(w.ledger)
    ensures AllSane(Moved(w, m).ledger)
  {
    if m.Do? {
      StepLogs(w, m.op);
      var l, l' := w.ledger, Step(w, m.op).ledger;
      forall i | 0 <= i < |l'|
        ensures Sane(l'[i])
      {
        if i < |l| {
          assert l'[i] == l'[..|l|][i];
        }
      }
    }
  }

  lemma {:induction false} RunKeepsSane(w: World, moves: seq<Move>)
    requires Legal(w, moves) && AllSane(w.ledger)
    ensures AllSane(Run(w, moves).ledger)
    decreases |moves|
  {
    if moves != [] {
      MoveKeepsSane(w, moves[0]);
      RunKeepsSane(Moved(w, moves[0]), moves[1..]);
    }
  }

  lemma {:induction false} KeptIsBounded(ledger: Ledger, k: u32)
    requires AllSane(ledger)
    ensures KeptBytes(ledger, k) <= ReceivedBytes(ledger, k)
  {
    if ledger != [] {
      assert Sane(ledger[|ledger| - 1]);
      KeptIsBounded(ledger[..|ledger| - 1], k);
    }
  }

  /** If as much was kept as was received, every payload was kept whole. */
  lemma {:induction false} KeptWhole(r: Reader, ledger: Ledger)
    requires AllSane(ledger) && KeptBytes(ledger, r.id) == ReceivedBytes(ledger, r.id)
    ensures KeptFor(r, ledger) == SentFor(r, ledger)
  {
    hide Decode;
    if ledger != [] {
      var front, last := ledger[..|ledger| - 1], ledger[|ledger| - 1];
      assert Sane(last);
      assert AllSane(front) by {
        assert forall i :: 0 <= i < |front| ==> front[i] == ledger[i];
      }
      KeptIsBounded(front, r.id);
      KeptWhole(r, front);
      if last.Received? && last.id == r.id {
        PayloadFits(r, last.message);
      }
    }
  }

  lemma PayloadFits(r: Reader, m: Message)
    ensures |PayloadFor(r, m)| <= SizeIn(m)
  {
  }

  /** If moreover the windows fit 32 bits and the peer respects its credit and the packet size, what was read and what
      is still queued are the whole payloads the peer sent on the stream: no loss, no repetition, no octet of a
      header. */
  lemma EveryPayloadIsRead(moves: seq<Move>, r: Reader)
    requires Legal(NoChannels(), moves) && RunUndisturbed(NoChannels(), moves, r)
    requires RunFaithful(NoChannels(), moves, true) && r.id in Run(NoChannels(), moves).chans
    requires Conforming(Run(NoChannels(), moves).ledger, r.id)
    ensures var w := Run(NoChannels(), moves);
            RunGiven(NoChannels(), moves, r) + Stream(By(r), w.packets) == SentFor(r, w.ledger)
  {
    ReadsArePayloads(moves, r);
    NothingIsLost(moves, r.id);
    RunKeepsSane(NoChannels(), moves);
    KeptWhole(r, Run(NoChannels(), moves).ledger);
  }

  // ---- Flushing ----

  /** A flush, entered afresh, empties the stream it chooses, leaves the other streams and the other channels alone, and
      reports, once it does not block, how many octets of its channel it took off the queue. */
  lemma FlushMeans(w: World, k: u32, which: i32, env: Env, r: Reader)
    requires k in w.chans && w.chans[k].local.id == k && w.chans[k].flush.state == Idle
    requires env.send != WouldBlock && AllHold(LongEnough(), w.packets)
    ensures var o := FlushCall(w, k, which, env);
            && (r.id == k && FlushTakes(which, r) ==> Stream(By(r), o.w.packets) == [])
            && (r.id != k || FlushSpares(which, r) ==> Stream(By(r), o.w.packets) == Stream(By(r), w.packets))
            && QueuedBytes(k, o.w.packets) <= QueuedBytes(k, w.packets)
            && o.rc == AsInt32(Wrap32(QueuedBytes(k, w.packets) - QueuedBytes(k, o.w.packets)))
  {
    hide Stream, Wrap;
    FlushNotCut(k, which, w.packets);
    FlushEmpties(k, which, w.packets, r);
    FlushCountsBytes(k, which, w.packets, k);
    FlushReports(w.chans[k], Flush(k, which, w.packets), env.send);
  }

  /** A flush entered afresh that meets a packet cut short fails, and neither takes anything out of the counts nor sends
      anything; any other reports what it discarded, once it does not block. */
  lemma FlushReports(c: Chan, f: Flushed, ans: SendAnswer)
    requires c.flush.state == Idle
    ensures var a := FlushAct(c, f, ans);
            if f.cut then a.rc == ERROR_PROTO && a.sent == None && a.c.readAvail == c.readAvail && a.c.remote == c.remote
            else ans != WouldBlock ==> a.rc == AsInt32(Wrap32(f.discarded))
  {
    hide Wrap;
  }
}
