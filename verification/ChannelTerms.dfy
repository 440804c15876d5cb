/**
 What the two sides tell each other about a channel: every packet a channel sends is addressed to the id the
 peer gave it and no larger than the peer allowed, and what this side announces is what it goes by.
 */
module ChannelTerms {
  import opened Bytes
  import opened PacketQueue
  import opened ChannelSpec
  import opened ChannelTraces
  import opened ChannelSteps
  import opened ChannelRuns

  // ---- What this side announces ----

  /** What the peer was told about the channel, in the packets sent: nothing yet, or the terms of its opening. */
  function Told(v: View): Terms {
    if Announced(v.own) == [] then Terms(0, 0, 0) else Announced(v.own)[0]
  }

  /** An opening that says what this side will take. */
  ghost predicate OpensAs(packet: bytes, id: u32, window: u32, packetSize: u32) {
    exists kind: Text :: packet == OpenBytes(kind, id, window, packetSize)
  }

  /** The channel has announced exactly once what it will take, or is about to. */
  ghost predicate Offered(v: View) {
    if v.c.opening.state == Created then
      Announced(v.own) == [] && OpensAs(v.c.opening.packet, v.c.local.id, v.c.remote.windowInitial, v.c.remote.packetSize)
    else Announced(v.own) == [Terms(v.c.local.id, v.c.remote.windowInitial, v.c.remote.packetSize)]
  }

  /** The octets of the peer's data that were not kept: those beyond the window or the packet size. */
  function LostOctets(v: View): int {
    v.received - v.kept
  }

  lemma ToldMeans(v: View)
    requires Offered(v)
    ensures Told(v) == if v.c.opening.state == Created then Terms(0, 0, 0)
                       else Terms(v.c.local.id, v.c.remote.windowInitial, v.c.remote.packetSize)
  {
  }

  /** An act that announces nothing, and leaves alone what was announced. */
  predicate SameOffer(c: Chan, a: Act) {
    && a.c.opening == c.opening && a.c.local.id == c.local.id
    && a.c.remote.windowInitial == c.remote.windowInitial && a.c.remote.packetSize == c.remote.packetSize
    && (a.sent.Some? ==> |a.sent.value| > 0 && a.sent.value[0] != MSG_CHANNEL_OPEN && a.sent.value[0] != MSG_CHANNEL_OPEN_CONFIRMATION)
  }

  lemma OfferStays(v: View, a: Act)
    requires Offered(v) && SameOffer(v.c, a)
    ensures Offered(Effect(v, a)) && Told(Effect(v, a)) == Told(v)
  {
    hide Announced, OfferIn, OpensAs;
    if a.sent.Some? {
      NoOffer(a.sent.value);
      assert Announced(v.own) + [] == Announced(v.own);
      AnnouncedExtends(v.own, a.sent.value);
    }
  }

  /** The opening announces what this side will take. */
  lemma OpeningOffers(v: View, extra: bytes)
    requires Offered(v) && Shaped(v.c) && v.c.opening.state == Created
    ensures var p := v.c.opening.packet + extra;
            && OfferIn(p) == Some(Terms(v.c.local.id, v.c.remote.windowInitial, v.c.remote.packetSize))
            && p[0] == MSG_CHANNEL_OPEN
  {
    hide Announced, Decode;
    var c := v.c;
    var kind: Text :| c.opening.packet == OpenBytes(kind, c.local.id, c.remote.windowInitial, c.remote.packetSize);
    OpenDecodes(kind, c.local.id, c.remote.windowInitial, c.remote.packetSize, extra);
  }

  lemma FreshOffer(m: Move, heard: seq<Message>)
    requires !m.Do?
    ensures var v := Fresh(m, Replies(m.id, heard));
            Offered(v) && Told(v).window == if m.OpenPeer? then WINDOW_DEFAULT else 0
  {
    hide Decode;
    RepliesAreAside([], m.id, heard);
    assert [] + Replies(m.id, heard) == Replies(m.id, heard);
    if m.OpenPeer? {
      ConfirmDecodes(m.sender, m.id);
      AnnouncedExtends(Replies(m.id, heard), ConfirmBytes(m.sender, m.id));
    } else {
      assert OpensAs(OpenBytes(m.kind, m.id, m.window, m.packetSize), m.id, m.window, m.packetSize);
    }
  }

  /** A channel nothing has happened to: open both ways, with nothing to read and nothing parked but its opening. */
  predicate Untouched(c: Chan) {
    && !c.local.eof && !c.local.close && !c.remote.eof && !c.remote.close && !c.merge && c.readAvail == 0
    && c.local.window == c.local.windowInitial && c.remote.window == c.remote.windowInitial && c.adjust.queue == 0
    && c.read == Idle && c.adjust.state == Idle && c.flush.state == Idle && c.write.state == Idle
    && c.close.state == Idle && c.process.state == Idle
  }

  /** A channel is opened on the terms that were asked for: they are in its fields and in the request that is sent. */
  lemma OpeningSays(id: u32, kind: Text, window: u32, packetSize: u32, extra: bytes)
    ensures var c := OwnChan(kind, id, window, packetSize);
            var a := SendOpen(c, extra, Accepted);
            && Untouched(c) && c.local.id == id && c.remote.windowInitial == window && c.remote.packetSize == packetSize
            && a.sent.Some? && Decode(a.sent.value) == OpenRequest(kind, id, window, packetSize, extra)
  {
    hide Decode;
    OpenDecodes(kind, id, window, packetSize, extra);
  }

  /** A channel that the peer opens has the peer's terms in the fields for what this side sends, and the terms that its
      confirmation announces in those for what the peer sends. */
  lemma PeerOpenSays(w: World, k: u32, sender: u32, window: u32, packetSize: u32)
    ensures var w' := PeerOpen(w, k, sender, window, packetSize, Accepted);
            && k in w'.chans && |w'.wire| == |w.wire| + 1 && w'.wire[|w.wire|].id == k
            && var c := w'.chans[k];
               && Untouched(c) && c.opening.state == Idle && c.remote.id == sender
               && c.local.windowInitial == window && c.local.packetSize == packetSize
               && Decode(w'.wire[|w.wire|].data) == Confirmation(sender, c.local.id, c.remote.windowInitial, c.remote.packetSize)
               && c.local.id == k
  {
    hide Decode;
    ConfirmDecodes(sender, k);
  }

  lemma DrainKeepsOpening(w: World, arrivals: seq<Message>, k: u32)
    requires k in w.chans
    ensures var d := Drain(w, arrivals).chans[k]; d.opening == w.chans[k].opening && d.local.id == w.chans[k].local.id
  {
    hide Drain, Deliver;
    DrainDelivers(w, arrivals, k);
    DeliverFrame(k, ViewOf(w, k), arrivals);
    assert ViewOf(Drain(w, arrivals), k).c == Drain(w, arrivals).chans[k];
  }

  lemma TryReports(w: World, k: u32, extra: bytes, env: Env)
    requires k in w.chans && w.chans[k].opening.state in {Created, Sent}
    ensures var c, o := w.chans[k], OpenTry(w, k, extra, env);
            && o.w.chans[k].local.id == c.local.id
            && o.rc == (if c.opening.state == Created && env.send != Accepted then SendCode(env.send) else OpeningCode(env.openReply))
            && (o.w.chans[k].opening.state == Idle <==> o.rc == 0)
  {
    hide Drain;
    var w1 := Apply(w, k, SendOpen(w.chans[k], extra, env.send));
    DrainKeepsOpening(w1, env.arrivals, k);
  }

  /** What the reply to an opening comes to: success for a confirmation of at least 17 octets. */
  function OpeningCode(reply: OpenReply): int {
    match reply
    case Unanswered => ERROR_EAGAIN
    case NoAnswer(error) => error
    case Response(p) =>
      if p[0] == MSG_CHANNEL_OPEN_CONFIRMATION then if |p| >= 17 then 0 else ERROR_PROTO
      else ERROR_CHANNEL_FAILURE
  }

  /** An opening reports what became of its request or of the reply to it. The channel is listed as long as it may
      still be opened, and is open exactly when the report is success; of a channel that is not listed any more,
      nothing is left in the queue. */
  lemma OpenReports(w: World, k: u32, extra: bytes, env: Env)
    requires k in w.chans && w.chans[k].opening.state in {Created, Sent}
    ensures var c, o := w.chans[k], OpenOn(w, k, extra, env);
            && o.rc == (if c.opening.state == Created && env.send != Accepted then SendCode(env.send) else OpeningCode(env.openReply))
            && (k in o.w.chans <==> o.rc == 0 || o.rc == ERROR_EAGAIN)
            && (k in o.w.chans ==> (o.w.chans[k].opening.state == Idle <==> o.rc == 0))
            && (k !in o.w.chans ==> Stream(AllData(c.local.id), o.w.packets) == [])
  {
    hide OpenTry, Stream;
    TryReports(w, k, extra, env);
    var w1 := OpenTry(w, k, extra, env).w;
    UnlinkIsExact(AllData(w.chans[k].local.id), (p: Packet) => false, w1.packets);
  }

  // ---- What this side sends ----

  /** A packet that a peer with these terms takes: it is addressed to the peer's id, and no data packet is larger
      than the peer allows. */
  predicate FitTo(t: Terms, p: bytes) {
    match Decode(p)
    case Confirmation(recipient, _, _, _) => recipient == t.id
    case Data(recipient, _, payload) => recipient == t.id && |payload| <= t.packetSize
    case WindowAdjust(recipient, _) => recipient == t.id
    case Eof(recipient) => recipient == t.id
    case Close(recipient) => recipient == t.id
    case ChannelRequest(recipient, _) => recipient == t.id
    case _ => false
  }

  /** What the peer has told this side. */
  function PeerTerms(c: Chan): Terms {
    Terms(c.remote.id, c.local.windowInitial, c.local.packetSize)
  }

  ghost predicate IsAdjustFor(packet: bytes, id: u32) {
    exists count: u32 :: packet == AdjustBytes(id, count)
  }

  ghost predicate IsHeaderFor(packet: bytes, id: u32, size: u32) {
    exists stream: i32 :: packet == DataHeader(id, stream, size)
  }

  ghost predicate IsRequestFor(packet: bytes, id: u32) {
    exists request: Text, message: Option<bytes> :: packet == RequestBytes(id, request, message)
  }

  lemma AdjustFits(t: Terms, packet: bytes)
    requires IsAdjustFor(packet, t.id)
    ensures FitTo(t, packet)
  {
    hide Decode;
    var count: u32 :| packet == AdjustBytes(t.id, count);
    ControlDecodes(t.id, count);
  }

  lemma DataFits(t: Terms, packet: bytes, payload: bytes)
    requires |payload| <= t.packetSize && IsHeaderFor(packet, t.id, |payload|)
    ensures FitTo(t, packet + payload)
  {
    hide Decode;
    var stream: i32 :| packet == DataHeader(t.id, stream, |payload|);
    DataDecodes(t.id, stream, payload);
  }

  lemma EndingsFit(t: Terms)
    ensures FitTo(t, EofBytes(t.id)) && FitTo(t, CloseBytes(t.id))
  {
    hide Decode;
    ControlDecodes(t.id, 0);
  }

  lemma RequestFits(t: Terms, packet: bytes, message: bytes)
    requires IsRequestFor(packet, t.id)
    ensures FitTo(t, packet + message) && |packet| > 0 && packet[0] == MSG_CHANNEL_REQUEST
  {
    var request: Text, m: Option<bytes> :| packet == RequestBytes(t.id, request, m);
    var p := packet + message;
    assert p == [MSG_CHANNEL_REQUEST] + StoreU32(t.id) + p[5..];
    LoadAt([MSG_CHANNEL_REQUEST], t.id, p[5..]);
  }

  /** What a channel has parked is for the peer. */
  ghost predicate ParkedFor(c: Chan) {
    && (c.adjust.state != Idle ==> IsAdjustFor(c.adjust.packet, c.remote.id))
    && (c.write.state == Created ==> c.write.len <= c.local.packetSize && IsHeaderFor(c.write.packet, c.remote.id, c.write.len))
    && (c.close.state == Created ==> c.close.packet == CloseBytes(c.remote.id))
    && (c.process.state == Created ==> IsRequestFor(c.process.packet, c.remote.id))
  }

  predicate SameTerms(c: Chan, d: Chan) {
    && d.opening == c.opening && d.local.id == c.local.id
    && d.remote.windowInitial == c.remote.windowInitial && d.remote.packetSize == c.remote.packetSize
    && PeerTerms(d) == PeerTerms(c)
  }

  /** An act of a call other than a startup or an opening. */
  ghost predicate PlainAct(c: Chan, a: Act) {
    && ParkedFor(a.c) && SameTerms(c, a.c) && a.c.process == c.process
    && (a.sent.Some? ==> |a.sent.value| > 0 && MSG_CHANNEL_WINDOW_ADJUST <= a.sent.value[0] <= MSG_CHANNEL_CLOSE && FitTo(PeerTerms(c), a.sent.value))
  }

  /** What such a call does to its channel, as far as the terms are concerned. */
  ghost predicate Plain(v: View, v': View) {
    && ParkedFor(v'.c) && SameTerms(v.c, v'.c) && v'.c.process == v.c.process
    && Requests(v'.own) == Requests(v.own) && Announced(v'.own) == Announced(v.own)
    && forall p :: p in Spoken(v'.own) ==> p in Spoken(v.own) || FitTo(PeerTerms(v.c), p)
  }

  lemma PlainOn(v: View, v1: View, v2: View)
    requires Plain(v, v1) && Plain(v1, v2)
    ensures Plain(v, v2)
  {
    hide ParkedFor, FitTo, Requests, Announced, Spoken;
  }

  lemma ActIsPlain(v: View, a: Act)
    requires PlainAct(v.c, a)
    ensures Plain(v, Effect(v, a))
  {
    hide ParkedFor, FitTo, SentData, SentAdjusts, Kinds, Answers, Announced, OfferIn;
    if a.sent.Some? {
      NoOffer(a.sent.value);
      assert Announced(v.own) + [] == Announced(v.own);
      AnnouncedExtends(v.own, a.sent.value);
      OwnExtends(v.own, a.sent.value);
    }
  }

  lemma DeliverIsPlain(k: u32, v: View, arrivals: seq<Message>)
    requires ParkedFor(v.c)
    ensures Plain(v, Deliver(k, v, arrivals))
  {
    hide Deliver, FitTo, Requests, Spoken, Offers;
    DeliverFrame(k, v, arrivals);
    DeliverAside(k, v, arrivals);
  }

  lemma AdjustIsPlain(c: Chan, adjustment: u32, force: bool, ans: SendAnswer)
    requires ParkedFor(c)
    ensures PlainAct(c, Adjust(c, adjustment, force, ans))
  {
    hide FitTo;
    var a := Adjust(c, adjustment, force, ans);
    assert IsAdjustFor(AdjustBytes(c.remote.id, Wrap32(adjustment + c.adjust.queue)), c.remote.id);
    if a.sent.Some? {
      AdjustFits(PeerTerms(c), a.sent.value);
    }
  }

  lemma PrepareIsPlain(c: Chan, buflen: nat, ans: SendAnswer)
    requires ParkedFor(c)
    ensures PlainAct(c, ReadPrepare(c, buflen, ans))
  {
    hide Adjust, FitTo;
    AdjustIsPlain(c.(read := Jump1), ReadAdjustment(c, buflen), false, ans);
  }

  lemma ReadIsPlain(k: u32, v: View, buflen: nat, env: Env, taken: nat)
    requires ParkedFor(v.c)
    ensures Plain(v, ReadView(k, v, ReadPrepare(v.c, buflen, env.send), env, taken))
  {
    hide ReadPrepare, Deliver, Announced, Requests, Spoken, FitTo;
    var a := ReadPrepare(v.c, buflen, env.send);
    PrepareIsPlain(v.c, buflen, env.send);
    ActIsPlain(v, a);
    DeliverIsPlain(k, Effect(v, a), env.arrivals);
    PlainOn(v, Effect(v, a), Deliver(k, Effect(v, a), env.arrivals));
  }

  lemma RefundIsPlain(c: Chan, ans: SendAnswer)
    requires ParkedFor(c)
    ensures PlainAct(c, RefundAct(c, ans))
  {
    hide Adjust, FitTo;
    AdjustIsPlain(c, Wrap32(c.flush.refund), true, ans);
  }

  lemma FinishIsPlain(c: Chan, ans: SendAnswer)
    requires ParkedFor(c)
    ensures PlainAct(c, FlushFinish(c, ans))
  {
    hide RefundAct, FitTo;
    RefundIsPlain(Consume(c, c.flush.bytes), ans);
  }

  lemma FlushIsPlain(v: View, f: Flushed, env: Env)
    requires ParkedFor(v.c)
    ensures Plain(v, FlushView(v, f, env))
  {
    hide FlushFinish, Announced, Requests, Spoken, FitTo;
    FinishIsPlain(FlushMark(v.c, f), env.send);
    ActIsPlain(v, FlushAct(v.c, f, env.send));
  }

  lemma ParkIsFor(c: Chan, stream: i32, buflen: nat)
    requires ParkedFor(c)
    ensures ParkedFor(Park(c, stream, buflen)) && SameTerms(c, Park(c, stream, buflen))
  {
    var n := WriteSize(c, buflen);
    assert IsHeaderFor(DataHeader(c.remote.id, stream, n), c.remote.id, n);
  }

  lemma ParkedIsPlain(c: Chan, buf: bytes, ans: SendAnswer)
    requires ParkedFor(c) && c.write.state == Created && c.write.len <= |buf|
    ensures PlainAct(c, SendParked(c, buf, ans))
  {
    hide FitTo;
    var payload := buf[..c.write.len];
    HeaderIsData(c.write.packet, c.remote.id, c.write.len);
    DataFits(PeerTerms(c), c.write.packet, payload);
  }

  lemma HeaderIsData(packet: bytes, id: u32, size: u32)
    requires IsHeaderFor(packet, id, size)
    ensures |packet| > 0 && MSG_CHANNEL_DATA <= packet[0] <= MSG_CHANNEL_EXTENDED_DATA
  {
  }

  lemma WriteIsPlain(k: u32, v: View, stream: i32, buf: bytes, env: Env)
    requires ParkedFor(v.c) && (v.c.write.state == Created ==> v.c.write.len <= |buf|)
    ensures Plain(v, WriteView(k, v, stream, buf, env))
  {
    hide SendParked, DataHeader, Deliver, Announced, Requests, Spoken, FitTo, ParkedFor;
    StaysPlain(v);
    if v.c.write.state == Created {
      ParkedIsPlain(v.c, buf, env.send);
      ActIsPlain(v, SendParked(v.c, buf, env.send));
    } else {
      var v1 := Deliver(k, v, env.arrivals);
      DeliverIsPlain(k, v, env.arrivals);
      IdleWriteIsPlain(v1, stream, buf, env.send);
      PlainOn(v, v1, Effect(v1, SendParked(Park(v1.c, stream, |buf|), buf, env.send)));
    }
  }

  lemma StaysPlain(v: View)
    requires ParkedFor(v.c)
    ensures Plain(v, v)
  {
  }

  lemma IdleWriteIsPlain(v: View, stream: i32, buf: bytes, ans: SendAnswer)
    requires ParkedFor(v.c)
    ensures Plain(v, Effect(v, SendParked(Park(v.c, stream, |buf|), buf, ans)))
  {
    hide SendParked, Announced, Requests, Spoken, FitTo, ParkedFor;
    var d := Park(v.c, stream, |buf|);
    ParkIsFor(v.c, stream, |buf|);
    ParkedIsPlain(d, buf, ans);
    ActIsPlain(v, SendParked(d, buf, ans));
  }

  lemma EofIsPlain(c: Chan, ans: SendAnswer)
    requires ParkedFor(c)
    ensures PlainAct(c, SendEof(c, ans))
  {
    hide FitTo;
    EndingsFit(PeerTerms(c));
  }

  lemma CloseIsPlain(c: Chan, rc: int, ans: SendAnswer)
    requires ParkedFor(c)
    ensures PlainAct(c, SendClose(c, rc, ans))
  {
    hide FitTo;
    EndingsFit(PeerTerms(c));
  }

  lemma MarkIsPlain(v: View, v': View)
    requires Plain(v, v')
    ensures Plain(v, v'.(c := MarkClosed(v'.c)))
  {
    hide Announced, Requests, Spoken, FitTo;
  }

  lemma CloseViewIsPlain(k: u32, v: View, e: Act, env: Env, n: nat, done: bool)
    requires n <= |env.arrivals| && PlainAct(v.c, e)
    ensures Plain(v, CloseView(k, v, e, env, n, done))
  {
    hide SendClose, Deliver, Announced, Requests, Spoken, FitTo;
    var v1 := Effect(v, e);
    ActIsPlain(v, e);
    if e.rc != ERROR_EAGAIN {
      var a := SendClose(e.c, e.rc, env.send);
      var v2 := Effect(v1, a);
      CloseIsPlain(e.c, e.rc, env.send);
      ActIsPlain(v1, a);
      PlainOn(v, v1, v2);
      DeliverIsPlain(k, v2, env.arrivals[..n]);
      var v3 := Deliver(k, v2, env.arrivals[..n]);
      PlainOn(v, v2, v3);
      MarkIsPlain(v, v2);
      MarkIsPlain(v, v3);
    }
  }

  lemma ShutIsPlain(k: u32, v: View, env: Env, n: nat, done: bool)
    requires n <= |env.arrivals| && ParkedFor(v.c)
    ensures Plain(v, ShutView(k, v, env, n, done))
  {
    hide CloseView, Announced, Requests, Spoken, FitTo;
    if !v.c.local.close {
      var e := EofBeforeClose(v.c, env.eofSend);
      EofIsPlain(v.c, env.eofSend);
      CloseViewIsPlain(k, v, e, env, n, done);
    }
  }

  /** Every call but a startup and an opening is plain. */
  lemma CallIsPlain(v: View, op: Op, h: Hint)
    requires op.call.Write? && v.c.write.state == Created ==> v.c.write.len <= |op.call.buf|
    requires h.n <= |op.env.arrivals| && ParkedFor(v.c) && !op.call.Start? && !op.call.Open?
    ensures Plain(v, OwnStep(v, op, h))
  {
    hide Plain, ParkedFor, WriteView, ReadView, FlushView, ShutView, Deliver, ReadPrepare;
    var k, env := op.k, op.env;
    match op.call
    case Write(stream, buf) => WriteIsPlain(k, v, stream, buf, env);
    case Read(_, buflen) => ReadIsPlain(k, v, buflen, env, h.taken);
    case AdjustWindow(adjustment, force) =>
      AdjustIsPlain(v.c, adjustment, force, env.send);
      ActIsPlain(v, Adjust(v.c, adjustment, force, env.send));
    case FlushStream(_) => FlushIsPlain(v, h.flushed, env);
    case Merging(on) => MergeIsPlain(v, on);
    case EndOfData =>
      EofIsPlain(v.c, env.eofSend);
      ActIsPlain(v, SendEof(v.c, env.eofSend));
    case Shut => ShutIsPlain(k, v, env, h.n, h.done);
    case Free => StaysPlain(v); ShutIsPlain(k, v, env, h.n, h.done);
    case Receive => DeliverIsPlain(k, v, env.arrivals);
  }

  lemma MergeIsPlain(v: View, on: bool)
    requires ParkedFor(v.c)
    ensures Plain(v, Effect(v, SetMerge(v.c, on)))
  {
    ActIsPlain(v, SetMerge(v.c, on));
  }

  // ---- What holds of a channel ----

  /** Apart from its opening, all that a channel has said fits the terms of the peer. */
  ghost predicate AllFit(own: seq<bytes>, t: Terms) {
    forall p :: p in Spoken(own) ==> Decode(p).OpenRequest? || FitTo(t, p)
  }

  ghost predicate OnlyOpened(own: seq<bytes>) {
    forall p :: p in Spoken(own) ==> Decode(p).OpenRequest?
  }

  predicate NothingParked(c: Chan) {
    c.adjust.state == Idle && c.write.state != Created && c.close.state != Created && c.process.state != Created
  }

  /** A channel keeps to its terms: before it is open it has sent nothing but its opening, and then all it has sent
      and parked is for the peer. */
  ghost predicate HoldsTo(v: View) {
    && Offered(v)
    && if v.c.opening.state != Idle then NothingParked(v.c) && OnlyOpened(v.own)
       else ParkedFor(v.c) && AllFit(v.own, PeerTerms(v.c))
  }

  lemma HoldsToIsShaped(v: View)
    requires HoldsTo(v)
    ensures Shaped(v.c)
  {
    hide Announced, AllFit, OnlyOpened;
    if v.c.process.state == Created {
      RequestFits(PeerTerms(v.c), v.c.process.packet, []);
    }
  }

  lemma PlainKeeps(v: View, v': View)
    requires HoldsTo(v) && v.c.opening.state == Idle && Plain(v, v')
    ensures HoldsTo(v')
  {
    hide ParkedFor, Announced, Spoken, FitTo, OpensAs;
  }

  /** Receiving, before the channel is open or after. */
  lemma DeliverKeepsTerms(k: u32, v: View, arrivals: seq<Message>)
    requires HoldsTo(v)
    ensures var v' := Deliver(k, v, arrivals); HoldsTo(v') && SameTerms(v.c, v'.c)
  {
    hide Deliver, FitTo, Spoken, Offers, OpensAs;
    DeliverFrame(k, v, arrivals);
    DeliverAside(k, v, arrivals);
  }

  lemma SendStartKeepsTerms(v: View, request: Text, message: Option<bytes>, ans: SendAnswer)
    requires HoldsTo(v) && v.c.opening.state == Idle
    ensures var v' := Effect(v, SendStart(v.c, request, message, ans)); HoldsTo(v') && SameTerms(v.c, v'.c)
  {
    hide Announced, Spoken, FitTo, OpensAs, RequestBytes;
    var a := SendStart(v.c, request, message, ans);
    assert IsRequestFor(RequestBytes(v.c.remote.id, request, message), v.c.remote.id);
    if a.sent.Some? {
      var packet := if v.c.process.state == Idle then RequestBytes(v.c.remote.id, request, message) else v.c.process.packet;
      RequestFits(PeerTerms(v.c), packet, MessageOf(message));
      RequestKeepsTrace(v.own, a.sent.value, PeerTerms(v.c));
    }
  }

  lemma RequestKeepsTrace(own: seq<bytes>, p: bytes, t: Terms)
    requires IsRequest(p) && FitTo(t, p) && AllFit(own, t)
    ensures AllFit(own + [p], t) && Announced(own + [p]) == Announced(own)
  {
    hide Announced, FitTo, OfferIn, SentData, SentAdjusts, Requests, Kinds, Answers;
    NoOffer(p);
    assert Announced(own) + [] == Announced(own);
    AnnouncedExtends(own, p);
    OwnExtends(own, p);
  }

  lemma AwaitStartKeepsTerms(v: View, reply: Reply)
    requires HoldsTo(v) && v.c.opening.state == Idle
    ensures var v' := Effect(v, AwaitStart(v.c, reply)); HoldsTo(v') && SameTerms(v.c, v'.c)
  {
    hide Announced, FitTo, OpensAs, Spoken;
  }

  lemma StartKeepsTerms(k: u32, v: View, request: Text, message: Option<bytes>, env: Env)
    requires HoldsTo(v) && v.c.opening.state == Idle
    ensures var v' := StartView(k, v, request, message, env); HoldsTo(v') && SameTerms(v.c, v'.c)
  {
    hide HoldsTo, SendStart, AwaitStart, Deliver;
    if v.c.process.state != End {
      var v1 := Effect(v, SendStart(v.c, request, message, env.send));
      SendStartKeepsTerms(v, request, message, env.send);
      AwaitStartKeepsTerms(v1, env.reply);
      DeliverKeepsTerms(k, v1, env.arrivals);
      AwaitStartKeepsTerms(Deliver(k, v1, env.arrivals), env.reply);
    }
  }

  lemma OpeningSent(v: View, extra: bytes)
    requires HoldsTo(v) && v.c.opening.state == Created
    ensures HoldsTo(Effect(v, SendOpen(v.c, extra, Accepted)))
  {
    hide Announced, OfferIn, FitTo, OpensAs, SentData, SentAdjusts, Requests, Kinds, Answers;
    var p := v.c.opening.packet + extra;
    HoldsToIsShaped(v);
    OpeningOffers(v, extra);
    AnnouncedExtends(v.own, p);
    OwnExtends(v.own, p);
    IsOpening(v.c, extra);
  }

  lemma SendOpenKeepsTerms(v: View, extra: bytes, ans: SendAnswer)
    requires HoldsTo(v) && v.c.opening.state != Idle
    ensures var a := SendOpen(v.c, extra, ans);
            HoldsTo(Effect(v, a)) && a.c.opening.state != Idle && (a.rc == 0 ==> a.c.opening.state != Created)
  {
    hide HoldsTo;
    var a := SendOpen(v.c, extra, ans);
    if a.sent.Some? {
      OpeningSent(v, extra);
    } else {
      assert Effect(v, a) == v;
    }
  }

  lemma IsOpening(c: Chan, extra: bytes)
    requires OpensAs(c.opening.packet, c.local.id, c.remote.windowInitial, c.remote.packetSize)
    ensures Decode(c.opening.packet + extra).OpenRequest?
  {
    hide Decode;
    var kind: Text :| c.opening.packet == OpenBytes(kind, c.local.id, c.remote.windowInitial, c.remote.packetSize);
    OpenDecodes(kind, c.local.id, c.remote.windowInitial, c.remote.packetSize, extra);
  }

  lemma AwaitOpenKeepsTerms(v: View, reply: OpenReply)
    requires HoldsTo(v) && v.c.opening.state != Idle && v.c.opening.state != Created
    ensures HoldsTo(Effect(v, AwaitOpen(v.c, reply)))
  {
    hide Announced, FitTo, OpensAs, Spoken;
  }

  lemma OpenKeepsTerms(k: u32, v: View, extra: bytes, env: Env)
    requires HoldsTo(v) && v.c.opening.state != Idle
    ensures HoldsTo(OpenView(k, v, extra, env))
  {
    hide HoldsTo, AwaitOpen, Deliver;
    var a := SendOpen(v.c, extra, env.send);
    SendOpenKeepsTerms(v, extra, env.send);
    if a.rc == 0 {
      DeliverKeepsTerms(k, Effect(v, a), env.arrivals);
      AwaitOpenKeepsTerms(Deliver(k, Effect(v, a), env.arrivals), env.openReply);
    }
  }

  // ---- Runs ----

  /** The wait for the reply to an opening is reached. */
  predicate Awaits(c: Chan, ans: SendAnswer) {
    c.opening.state == Created ==> ans == Accepted
  }

  /** The terms in a confirmation, as section 5.1 of RFC 4254 lays it out; what follows is ignored. */
  function TermsIn(p: Message): Option<Terms> {
    if |p| < 17 then None
    else
      match Decode(p[..17])
      case Confirmation(_, sender, window, packetSize) => Some(Terms(sender, window, packetSize))
      case _ => None
  }

  /** What the peer has told this side about channel `k` after a move, if it was `last` before. */
  function TermsAfter(w: World, m: Move, k: u32, last: Option<Terms>): Option<Terms>
    requires Possible(w, m)
  {
    match m
    case OpenOwn(_, _, _, _) => last
    case OpenPeer(id, sender, window, packetSize, answer) =>
      if id == k && answer == Accepted then Some(Terms(sender, window, packetSize)) else last
    case Do(op) =>
      if op.k == k && op.call.Open? && Awaits(w.chans[k], op.env.send) && op.env.openReply.Response? then
        var t := TermsIn(op.env.openReply.packet);
        if t.Some? then t else last
      else last
  }

  function LastTerms(w: World, moves: seq<Move>, k: u32, last: Option<Terms>): Option<Terms>
    requires Legal(w, moves)
    decreases |moves|
  {
    if moves == [] then last else LastTerms(Moved(w, moves[0]), moves[1..], k, TermsAfter(w, moves[0], k, last))
  }

  lemma ConfirmationMeans(p: Message)
    ensures Confirms(p) <==> TermsIn(p).Some?
    ensures Confirms(p) ==> TermsIn(p) == Some(Terms(NtohU32(p[5..]), NtohU32(p[9..]), NtohU32(p[13..])))
  {
    if |p| >= 17 {
      var q := p[..17];
      assert forall i, j :: 0 <= i <= 13 && 0 <= j < 4 ==> q[i..][j] == p[i..][j];
    }
  }

  /** What a run keeps for channel `k`, in the session or out of it. */
  ghost predicate KeepsTerms(w: World, k: u32, t: Option<Terms>) {
    && Grounded(w)
    && |Announced(Own(w.wire, k))| <= 1
    && (if k in w.chans then
          && HoldsTo(ViewOf(w, k))
          && (w.chans[k].opening.state == Idle ==> t == Some(PeerTerms(w.chans[k])))
          && (w.chans[k].opening.state != Idle ==> t == None)
        else if t.Some? then AllFit(Own(w.wire, k), t.value)
        else OnlyOpened(Own(w.wire, k)))
  }

  lemma OwnCallHoldsTo(v: View, op: Op, h: Hint)
    requires op.call.Write? && v.c.write.state == Created ==> v.c.write.len <= |op.call.buf|
    requires op.call.Receive? || (op.call.Open? <==> v.c.opening.state != Idle)
    requires h.n <= |op.env.arrivals| && HoldsTo(v)
    ensures HoldsTo(OwnStep(v, op, h)) && (!op.call.Open? ==> SameTerms(v.c, OwnStep(v, op, h).c))
  {
    hide OwnStep, Deliver, StartView, OpenView, ParkedFor, AllFit, OnlyOpened, Offered, NothingParked;
    match op.call
    case Receive =>
      assert OwnStep(v, op, h) == Deliver(op.k, v, op.env.arrivals) by {
        ReceiveIsDeliver(v, op, h);
      }
      DeliverKeepsTerms(op.k, v, op.env.arrivals);
    case Start(request, message) =>
      StartIsView(v, op, h);
      StartKeepsTerms(op.k, v, request, message, op.env);
    case Open(extra) =>
      OpenIsView(v, op, h);
      OpenKeepsTerms(op.k, v, extra, op.env);
    case _ =>
      CallIsPlain(v, op, h);
      PlainKeeps(v, OwnStep(v, op, h));
  }

  lemma ReceiveIsDeliver(v: View, op: Op, h: Hint)
    requires op.call.Receive? && h.n <= |op.env.arrivals|
    ensures OwnStep(v, op, h) == Deliver(op.k, v, op.env.arrivals)
  {
  }

  lemma StartIsView(v: View, op: Op, h: Hint)
    requires op.call.Start? && h.n <= |op.env.arrivals|
    ensures OwnStep(v, op, h) == StartView(op.k, v, op.call.request, op.call.message, op.env)
  {
  }

  lemma OpenIsView(v: View, op: Op, h: Hint)
    requires op.call.Open? && h.n <= |op.env.arrivals|
    ensures OwnStep(v, op, h) == OpenView(op.k, v, op.call.extra, op.env)
  {
  }

  /** An opening ends exactly when its confirmation is awaited and arrives, and then by the terms in it; a channel
      that fails to open was told nothing. */
  lemma OpeningEnds(w: World, op: Op)
    requires Callable(w, op) && op.call.Open?
    ensures var c := Worked(w, op).chans[op.k];
            && (c.opening.state == Idle <==> TermsAfter(w, Do(op), op.k, None).Some?)
            && (c.opening.state == Idle ==> TermsAfter(w, Do(op), op.k, None) == Some(PeerTerms(c)))
            && (op.k !in Step(w, op).chans ==> c.opening.state != Idle)
  {
    hide Drain, TermsIn, NtohU32;
    var k, env := op.k, op.env;
    var a := SendOpen(w.chans[k], op.call.extra, env.send);
    if a.rc == 0 {
      var w1 := Apply(w, k, a);
      DrainKeepsOpening(w1, env.arrivals, k);
      if env.openReply.Response? {
        ConfirmationMeans(env.openReply.packet);
      }
    }
  }

  /** What a channel says during a call of another is replies. */
  lemma OthersSayNothing(w: World, op: Op, k: u32)
    requires Callable(w, op) && k != op.k
    ensures Spoken(Own(Step(w, op).wire, k)) == Spoken(Own(w.wire, k))
  {
    StepReplied(w, op, k);
    RepliesAreAside(Own(w.wire, k), k, Step(w, op).heard[|w.heard|..]);
  }

  lemma OthersStay(w: World, op: Op, k: u32)
    requires Callable(w, op) && k in w.chans && k != op.k
    ensures k in Step(w, op).chans
  {
  }

  /** Every call keeps every channel of the session to its terms. */
  lemma StepHoldsTo(w: World, op: Op, k: u32)
    requires Callable(w, op) && Keyed(w) && k in w.chans && k in Step(w, op).chans && HoldsTo(ViewOf(w, k))
    ensures HoldsTo(ViewOf(Step(w, op), k))
  {
    hide Step, HoldsTo, OwnStep;
    if k == op.k {
      var h := CallsAreLocal(w, op);
      OwnCallHoldsTo(ViewOf(w, k), op, h);
    } else {
      var n := CallsDoNotInterfere(w, op, k);
      DeliverKeepsTerms(k, ViewOf(w, k), op.env.arrivals[..n]);
    }
  }

  lemma OtherKeepsTerms(w: World, op: Op, k: u32, t: Option<Terms>)
    requires Callable(w, op) && k != op.k && KeepsTerms(w, k, t)
    ensures KeepsTerms(Step(w, op), k, t)
  {
    hide Step, HoldsTo, Announced;
    var w' := Step(w, op);
    StepKeepsGrounded(w, op);
    OthersSayNothing(w, op, k);
    SameSaid(Own(w.wire, k), Own(w'.wire, k));
    if k in w.chans {
      OthersStay(w, op, k);
      var n := CallsDoNotInterfere(w, op, k);
      DeliverKeepsTerms(k, ViewOf(w, k), op.env.arrivals[..n]);
      assert ViewOf(w', k).c == w'.chans[k];
    } else if k in w'.chans {
      StepKeepsKeys(w, op, k);
    } else {
      assert t.Some? ==> AllFit(Own(w'.wire, k), t.value);
      assert t.None? ==> OnlyOpened(Own(w'.wire, k));
    }
  }

  lemma SameSaid(own: seq<bytes>, own': seq<bytes>)
    requires Spoken(own') == Spoken(own)
    ensures Announced(own') == Announced(own)
  {
  }

  lemma AtMostOneOffer(v: View)
    requires Offered(v)
    ensures |Announced(v.own)| <= 1
  {
  }

  lemma OwnKeepsTerms(w: World, op: Op, t: Option<Terms>)
    requires Callable(w, op) && KeepsTerms(w, op.k, t)
    ensures KeepsTerms(Step(w, op), op.k, TermsAfter(w, Do(op), op.k, t))
  {
    hide Step, Worked, OwnStep, Announced, ParkedFor, AllFit, OnlyOpened, Offered, NothingParked;
    var k, v := op.k, ViewOf(w, op.k);
    StepKeepsGrounded(w, op);
    GroundedIsKeyed(w);
    var h := WorkIsLocal(w, op);
    StepOfWorked(w, op);
    OwnCallHoldsTo(v, op, h);
    var v' := ViewOf(Worked(w, op), k);
    assert v'.own == Own(Step(w, op).wire, k) && v'.c == Worked(w, op).chans[k];
    AtMostOneOffer(v');
    if op.call.Open? {
      OpeningEnds(w, op);
    }
  }

  lemma GroundedIsKeyed(w: World)
    requires Grounded(w)
    ensures Keyed(w)
  {
  }

  lemma FreshSaid(m: Move, heard: seq<Message>)
    requires !m.Do?
    ensures Spoken(Fresh(m, Replies(m.id, heard)).own) == if m.OpenPeer? then [ConfirmBytes(m.sender, m.id)] else []
  {
    hide ConfirmBytes, SentData, SentAdjusts, Requests, Kinds, Answers;
    var replies := Replies(m.id, heard);
    RepliesAreAside([], m.id, heard);
    assert [] + replies == replies;
    if m.OpenPeer? {
      ConfirmIsNoFailure(m.sender, m.id);
      OwnExtends(replies, ConfirmBytes(m.sender, m.id));
    }
  }

  lemma ConfirmIsNoFailure(sender: u32, id: u32)
    ensures !IsFailure(ConfirmBytes(sender, id))
  {
  }

  lemma FreshKeepsTerms(m: Move, heard: seq<Message>)
    requires !m.Do?
    ensures HoldsTo(Fresh(m, Replies(m.id, heard)))
  {
    hide Spoken, Announced, Offered, Decode, ConfirmBytes;
    FreshOffer(m, heard);
    FreshSaid(m, heard);
    if m.OpenPeer? {
      ConfirmDecodes(m.sender, m.id);
    }
  }

  lemma BlankSaid(w: World, k: u32)
    requires Grounded(w) && IsNew(w, k)
    ensures Spoken(Own(w.wire, k)) == [] && k !in w.chans
  {
    assert Blank(w, k);
    RepliesAreAside([], k, w.heard);
    assert [] + Replies(k, w.heard) == Replies(k, w.heard);
  }

  lemma OpeningKeepsTerms(w: World, m: Move, k: u32, t: Option<Terms>)
    requires Possible(w, m) && !m.Do? && KeepsTerms(w, k, t) && (k == m.id ==> t == None)
    ensures KeepsTerms(Moved(w, m), k, TermsAfter(w, m, k, t))
  {
    hide HoldsTo, Spoken, Offers;
    MoveKeepsGrounded(w, m);
    if k != m.id {
      OpeningSame(w, m, k);
    } else {
      var w' := Moved(w, m);
      BlankSaid(w, k);
      OpeningFresh(w, m);
      FreshKeepsTerms(m, w.heard);
      if k in w'.chans {
        assert ViewOf(w', k) == Fresh(m, Replies(k, w.heard)) && ViewOf(w', k).c == w'.chans[k];
        HoldsToOffers(ViewOf(w', k));
      }
    }
  }

  lemma HoldsToOffers(v: View)
    requires HoldsTo(v)
    ensures |Announced(v.own)| <= 1
  {
    hide Announced;
  }

  /** Nothing is known of an id that was never handed out. */
  ghost predicate Unknown(w: World, k: u32, t: Option<Terms>) {
    IsNew(w, k) ==> t == None
  }

  lemma StepStaysUnknown(w: World, m: Move, k: u32, t: Option<Terms>)
    requires Possible(w, m) && Grounded(w) && Unknown(w, k, t)
    ensures Unknown(Moved(w, m), k, TermsAfter(w, m, k, t))
  {
    hide TermsIn;
    if m.Do? {
      StepLogs(w, m.op);
      LogsOpenNothing(w.ledger, Step(w, m.op).ledger, w.chans.Keys, k);
      if IsNew(w, k) {
        assert Blank(w, k);
      }
    } else {
      EntryCounts(w.ledger, m.id, k);
    }
  }

  lemma {:induction false} RunKeepsTerms(w: World, moves: seq<Move>, k: u32, t: Option<Terms>)
    requires Legal(w, moves) && KeepsTerms(w, k, t) && Unknown(w, k, t)
    ensures KeepsTerms(Run(w, moves), k, LastTerms(w, moves, k, t))
    decreases |moves|
  {
    hide KeepsTerms, Unknown, TermsAfter;
    if moves != [] {
      var m := moves[0];
      var t1 := TermsAfter(w, m, k, t);
      MoveKeepsTerms(w, m, k, t);
      RunKeepsTerms(Moved(w, m), moves[1..], k, t1);
    }
  }

  lemma MoveKeepsTerms(w: World, m: Move, k: u32, t: Option<Terms>)
    requires Possible(w, m) && KeepsTerms(w, k, t) && Unknown(w, k, t)
    ensures var t1 := TermsAfter(w, m, k, t); KeepsTerms(Moved(w, m), k, t1) && Unknown(Moved(w, m), k, t1)
  {
    hide HoldsTo, Announced, TermsIn;
    StepStaysUnknown(w, m, k, t);
    if !m.Do? {
      OpeningKeepsTerms(w, m, k, t);
    } else if k == m.op.k {
      OwnKeepsTerms(w, m.op, t);
    } else {
      OtherKeepsTerms(w, m.op, k, t);
    }
  }

  lemma NothingToldYet(k: u32)
    ensures KeepsTerms(NoChannels(), k, None) && Unknown(NoChannels(), k, None)
  {
  }

  /** What the two sides tell each other, in every run from a session without channels and for every id. Of its own
      accord a channel announces at most once what it takes: nothing before its opening is sent, and then its id, its
      receive window as it was and its packet size. All it sends but its opening is addressed to the id that the
      peer's terms name, and no data packet is larger than they allow, whether the channel is still there or not; and
      while it is there and open, it goes by the terms that the peer sent last. */
  lemma TermsHold(moves: seq<Move>, k: u32)
    requires Legal(NoChannels(), moves)
    ensures var w, t := Run(NoChannels(), moves), LastTerms(NoChannels(), moves, k, None);
            var own := Own(w.wire, k);
            && |Announced(own)| <= 1
            && (forall p :: p in Spoken(own) ==> Decode(p).OpenRequest? || (t.Some? && FitTo(t.value, p)))
            && (k in w.chans ==>
                  var c := w.chans[k];
                  && Announced(own) == (if c.opening.state == Created then [] else [Terms(k, c.remote.windowInitial, c.remote.packetSize)])
                  && (c.opening.state == Idle ==> t == Some(Terms(c.remote.id, c.local.windowInitial, c.local.packetSize))))
  {
    hide Announced, FitTo, Legal, Run, LastTerms, OpensAs;
    NothingToldYet(k);
    RunKeepsTerms(NoChannels(), moves, k, None);
    GroundedIsKeyed(Run(NoChannels(), moves));
  }
}
