/**
 Silence: what a channel still sends once its CLOSE has gone out, and once it is freed.
 */
module ChannelSilence {
  import opened Bytes
  import opened PacketQueue
  import opened ChannelSpec
  import opened ChannelTraces
  import opened ChannelSteps
  import opened ChannelRuns
  import opened ChannelReplies
  import opened ChannelEnding

  // ---- After CLOSE ----

  /** The transport has accepted the CLOSE of this channel. */
  predicate SaidClose(c: Chan) {
    c.local.close || c.close.state == Sent
  }

  /** What a call finds on the queue when it flushes. */
  function Found(w: World, op: Op): Flushed {
    if op.call.FlushStream? then Flush(op.k, op.call.which, w.packets) else NoHint().flushed
  }

  /** The act by which a call on a closed channel sends what it sends. */
  function LateAct(c: Chan, op: Op, f: Flushed): Act {
    match op.call
    case Read(_, buflen) => ReadPrepare(c, buflen, op.env.send)
    case AdjustWindow(adjustment, force) => Adjust(c, adjustment, force, op.env.send)
    case FlushStream(_) => FlushAct(c, f, op.env.send)
    case EndOfData => SendEof(c, op.env.eofSend)
    case Start(request, message) =>
      if c.process.state == End then Act(c, 0, None) else SendStart(c, request, message, op.env.send)
    case Open(extra) => SendOpen(c, extra, op.env.send)
    case _ => Act(c, 0, None)
  }

  /** An adjustment that is neither held back for later nor empty. */
  predicate AdjustsNow(c: Chan, adjustment: u32, force: bool) {
    c.adjust.state == Idle ==>
      (force || Wrap32(adjustment + c.adjust.queue) >= MINADJUST) && !(adjustment == 0 && c.adjust.queue == 0)
  }

  /** The calls that send a packet on a channel whose CLOSE has gone out: none of them looks at that. */
  predicate SpeaksAfterClose(c: Chan, op: Op, f: Flushed) {
    match op.call
    case Read(_, buflen) =>
      && op.env.send == Accepted && (c.read == Jump1 || WindowTooNarrow(c, buflen))
      && AdjustsNow(c, ReadAdjustment(c, buflen), false)
    case AdjustWindow(adjustment, force) => op.env.send == Accepted && AdjustsNow(c, adjustment, force)
    case FlushStream(_) =>
      var refund := FlushMark(c, f).flush.refund;
      && op.env.send == Accepted && !(c.flush.state == Idle && f.cut) && refund != 0 && AdjustsNow(c, Wrap32(refund), true)
    case EndOfData => op.env.eofSend == Accepted
    case Start(_, _) => op.env.send == Accepted && c.process.state in {Idle, Created}
    case Open(_) => op.env.send == Accepted && c.opening.state == Created
    case _ => false
  }

  function SentBy(a: Act): seq<bytes> {
    if a.sent.Some? then [a.sent.value] else []
  }

  /** The window adjustments among the late acts. */
  lemma LateAdjustSpeaksIff(c: Chan, op: Op, f: Flushed)
    requires op.call.Read? || op.call.AdjustWindow? || op.call.FlushStream?
    ensures LateAct(c, op, f).sent.Some? <==> SpeaksAfterClose(c, op, f)
  {
  }

  lemma LateActSpeaksIff(c: Chan, op: Op, f: Flushed)
    ensures LateAct(c, op, f).sent.Some? <==> SpeaksAfterClose(c, op, f)
  {
    hide ReadPrepare, Adjust, FlushAct;
    if op.call.Read? || op.call.AdjustWindow? || op.call.FlushStream? {
      LateAdjustSpeaksIff(c, op, f);
    }
  }

  lemma EffectSpeaks(v: View, a: Act)
    requires a.sent.Some? ==> !IsFailure(a.sent.value)
    ensures Spoken(Effect(v, a).own) == Spoken(v.own) + SentBy(a)
  {
    if a.sent.Some? {
      OwnExtends(v.own, a.sent.value);
    }
  }

  /** An act, then a drain, then an act that sends nothing. */
  lemma DrainedSpeaks(k: u32, v: View, a: Act, arrivals: seq<Message>)
    requires a.sent.Some? ==> !IsFailure(a.sent.value)
    ensures Spoken(Effect(v, a).own) == Spoken(Deliver(k, Effect(v, a), arrivals).own) == Spoken(v.own) + SentBy(a)
  {
    EffectSpeaks(v, a);
    DeliverAside(k, Effect(v, a), arrivals);
  }

  lemma LateReadSpeaks(v: View, op: Op, h: Hint)
    requires Shaped(v.c) && h.n <= |op.env.arrivals| && op.call.Read?
    ensures Spoken(OwnStep(v, op, h).own) == Spoken(v.own) + SentBy(LateAct(v.c, op, h.flushed))
  {
    hide ReadPrepare, Deliver, Spoken;
    PrepareSends(v.c, op.call.buflen, op.env.send);
    DrainedSpeaks(op.k, v, ReadPrepare(v.c, op.call.buflen, op.env.send), op.env.arrivals);
  }

  lemma LateStartSpeaks(v: View, op: Op, h: Hint)
    requires Shaped(v.c) && h.n <= |op.env.arrivals| && op.call.Start?
    ensures Spoken(OwnStep(v, op, h).own) == Spoken(v.own) + SentBy(LateAct(v.c, op, h.flushed))
  {
    hide Deliver, Spoken;
    DrainedSpeaks(op.k, v, SendStart(v.c, op.call.request, op.call.message, op.env.send), op.env.arrivals);
  }

  lemma LateOpenSpeaks(v: View, op: Op, h: Hint)
    requires Shaped(v.c) && h.n <= |op.env.arrivals| && op.call.Open?
    ensures Spoken(OwnStep(v, op, h).own) == Spoken(v.own) + SentBy(LateAct(v.c, op, h.flushed))
  {
    hide Deliver, Spoken;
    DrainedSpeaks(op.k, v, SendOpen(v.c, op.call.extra, op.env.send), op.env.arrivals);
  }

  lemma LateActSpeaks(v: View, op: Op, h: Hint)
    requires Shaped(v.c) && h.n <= |op.env.arrivals|
    requires op.call.AdjustWindow? || op.call.FlushStream? || op.call.EndOfData?
    ensures Spoken(OwnStep(v, op, h).own) == Spoken(v.own) + SentBy(LateAct(v.c, op, h.flushed))
  {
    hide Adjust, FlushAct, Spoken;
    match op.call
    case AdjustWindow(adjustment, force) =>
      AdjustSends(v.c, adjustment, force, op.env.send);
      EffectSpeaks(v, Adjust(v.c, adjustment, force, op.env.send));
    case FlushStream(_) =>
      FlushSends(v.c, h.flushed, op.env.send);
      EffectSpeaks(v, FlushAct(v.c, h.flushed, op.env.send));
    case EndOfData => EffectSpeaks(v, SendEof(v.c, op.env.eofSend));
  }

  /** A close that waits for the peer's CLOSE only listens. */
  lemma LateShutIsSilent(k: u32, v: View, env: Env, n: nat, done: bool)
    requires Orderly(v) && SaidClose(v.c) && n <= |env.arrivals|
    ensures Spoken(ShutView(k, v, env, n, done).own) == Spoken(v.own)
  {
    if !v.c.local.close {
      CloseViewCloses(k, v, 0, env, n, done);
    }
  }

  lemma LateWriteIsSilent(k: u32, v: View, stream: i32, buf: bytes, env: Env)
    requires Orderly(v) && SaidClose(v.c) && (v.c.write.state == Created ==> v.c.write.len <= |buf|)
    ensures WriteView(k, v, stream, buf, env) == v
  {
  }

  /** What any call on a closed channel adds to the channel's trace, replies to requests aside. */
  lemma LateWords(v: View, op: Op, h: Hint)
    requires op.call.Write? && v.c.write.state == Created ==> v.c.write.len <= |op.call.buf|
    requires Orderly(v) && SaidClose(v.c) && h.n <= |op.env.arrivals|
    ensures Spoken(OwnStep(v, op, h).own) == Spoken(v.own) + SentBy(LateAct(v.c, op, h.flushed))
  {
    hide Spoken, Deliver, ReadPrepare, Adjust, FlushAct, SendStart, SendOpen, SendEof;
    hide WriteView, ShutView, ReadView, StartView, OpenView;
    match op.call
    case Write(stream, buf) => LateWriteIsSilent(op.k, v, stream, buf, op.env);
    case Read(_, _) => LateReadSpeaks(v, op, h);
    case Start(_, _) => LateStartSpeaks(v, op, h);
    case Open(_) => LateOpenSpeaks(v, op, h);
    case Shut => LateShutIsSilent(op.k, v, op.env, h.n, h.done);
    case Free => LateShutIsSilent(op.k, v, op.env, h.n, h.done);
    case Merging(_) =>
    case Receive => DeliverAside(op.k, v, op.env.arrivals);
    case _ => LateActSpeaks(v, op, h);
  }

  /** CLOSE ends the data stream, not the conversation. On a channel whose CLOSE has gone out, a call still sends
      something of its own accord (and not only replies) exactly in these cases. */
  lemma SpeaksAfterCloseIff(v: View, op: Op, h: Hint)
    requires op.call.Write? && v.c.write.state == Created ==> v.c.write.len <= |op.call.buf|
    requires Orderly(v) && SaidClose(v.c) && h.n <= |op.env.arrivals|
    ensures Spoken(OwnStep(v, op, h).own) != Spoken(v.own) <==> SpeaksAfterClose(v.c, op, h.flushed)
  {
    hide OwnStep, LateAct, SpeaksAfterClose, Spoken, Orderly;
    LateWords(v, op, h);
    LateActSpeaksIff(v.c, op, h.flushed);
  }

  /** If this channel's CLOSE has gone out, it is the last thing the channel sent but replies. */
  predicate CloseIsLast(own: seq<bytes>) {
    PhaseOf(Kinds(own)) == Closed ==> EndsInClose(own)
  }

  lemma KindsExtend(own: seq<bytes>, data: bytes)
    ensures Kinds(own + [data]) == if IsStream(data) then Kinds(own) + [data[0]] else Kinds(own)
  {
  }

  /** The stream packets are among those that are no replies. */
  lemma {:induction false} KindsOfSpoken(own: seq<bytes>)
    ensures Kinds(Spoken(own)) == Kinds(own)
  {
    if own != [] {
      var front, last := own[..|own| - 1], own[|own| - 1];
      KindsOfSpoken(front);
      if !IsFailure(last) {
        KindsExtend(Spoken(front), last);
      }
    }
  }

  /** Nothing said after CLOSE keeps it last, and anything said, which is no CLOSE again, does not. */
  lemma LateWordIsLast(own: seq<bytes>, own': seq<bytes>, more: seq<bytes>)
    requires Spoken(own') == Spoken(own) + more && |more| <= 1
    requires PhaseOf(Kinds(own)) == Closed && PhaseOf(Kinds(own')) != Disorder
    ensures CloseIsLast(own') <==> CloseIsLast(own) && more == []
  {
    KindsOfSpoken(own);
    KindsOfSpoken(own');
    if more == [] {
      assert Spoken(own) + [] == Spoken(own);
    } else {
      PhaseExtends(Spoken(own), more[0]);
      assert more == [more[0]];
    }
  }

  lemma EffectKeepsClose(k: u32, v: View, a: Act, arrivals: seq<Message>)
    requires a.c.local.close == v.c.local.close && a.c.close.state == v.c.close.state
    ensures var c := Effect(v, a).c; c.local.close == v.c.local.close && c.close.state == v.c.close.state
    ensures var c := Deliver(k, Effect(v, a), arrivals).c; c.local.close == v.c.local.close && c.close.state == v.c.close.state
  {
    DeliverFrame(k, Effect(v, a), arrivals);
  }

  lemma WriteKeepsClose(k: u32, v: View, stream: i32, buf: bytes, env: Env)
    requires v.c.write.state == Created ==> v.c.write.len <= |buf|
    ensures SaidClose(WriteView(k, v, stream, buf, env).c) <==> SaidClose(v.c)
  {
    hide Deliver, WriteSize, DataHeader;
    DeliverFrame(k, v, env.arrivals);
  }

  lemma ReadKeepsClose(k: u32, v: View, buflen: nat, env: Env, taken: nat)
    requires Shaped(v.c)
    ensures SaidClose(ReadView(k, v, ReadPrepare(v.c, buflen, env.send), env, taken).c) <==> SaidClose(v.c)
  {
    hide Deliver, ReadPrepare;
    PrepareIsMute(v.c, buflen, env.send);
    EffectKeepsClose(k, v, ReadPrepare(v.c, buflen, env.send), env.arrivals);
  }

  lemma StartKeepsClose(k: u32, v: View, request: Text, message: Option<bytes>, env: Env)
    ensures SaidClose(StartView(k, v, request, message, env).c) <==> SaidClose(v.c)
  {
    hide Deliver;
    EffectKeepsClose(k, v, SendStart(v.c, request, message, env.send), env.arrivals);
  }

  lemma OpenKeepsClose(k: u32, v: View, extra: bytes, env: Env)
    ensures SaidClose(OpenView(k, v, extra, env).c) <==> SaidClose(v.c)
  {
    hide Deliver;
    EffectKeepsClose(k, v, SendOpen(v.c, extra, env.send), env.arrivals);
  }

  lemma ActKeepsClose(v: View, op: Op, h: Hint)
    requires Shaped(v.c) && h.n <= |op.env.arrivals|
    requires op.call.AdjustWindow? || op.call.FlushStream? || op.call.Merging? || op.call.EndOfData?
    ensures SaidClose(OwnStep(v, op, h).c) <==> SaidClose(v.c)
  {
    hide Adjust, FlushFinish;
    match op.call
    case AdjustWindow(adjustment, force) => AdjustIsMute(v.c, adjustment, force, op.env.send);
    case FlushStream(_) => FlushIsMute(v.c, h.flushed, op.env.send);
    case _ =>
  }

  /** Only a close, also that of a free, says CLOSE. */
  lemma OnlyShutCloses(v: View, op: Op, h: Hint)
    requires op.call.Write? && v.c.write.state == Created ==> v.c.write.len <= |op.call.buf|
    requires Shaped(v.c) && h.n <= |op.env.arrivals| && !op.call.Shut? && !op.call.Free?
    ensures SaidClose(OwnStep(v, op, h).c) <==> SaidClose(v.c)
  {
    hide WriteView, ReadView, StartView, OpenView, FlushView, Adjust, Deliver, SaidClose;
    match op.call
    case Write(stream, buf) => WriteKeepsClose(op.k, v, stream, buf, op.env);
    case Read(_, buflen) => ReadKeepsClose(op.k, v, buflen, op.env, h.taken);
    case Start(request, message) => StartKeepsClose(op.k, v, request, message, op.env);
    case Open(extra) => OpenKeepsClose(op.k, v, extra, op.env);
    case Receive => ReceivingKeepsClose(op.k, v, op.env.arrivals);
    case _ => ActKeepsClose(v, op, h);
  }

  lemma ReceivingKeepsClose(k: u32, v: View, arrivals: seq<Message>)
    ensures SaidClose(Deliver(k, v, arrivals).c) <==> SaidClose(v.c)
  {
    DeliverFrame(k, v, arrivals);
  }

  /** CLOSE is the last thing a close sends. */
  lemma ShutSaysCloseLast(k: u32, v: View, env: Env, n: nat, done: bool)
    requires n <= |env.arrivals| && Orderly(v) && !SaidClose(v.c) && CloseInOrder(v.c, env)
    ensures CloseIsLast(ShutView(k, v, env, n, done).own)
  {
    hide CloseView, ClosedBy, Orderly;
    var e := EofBeforeClose(v.c, env.eofSend);
    var v' := ShutView(k, v, env, n, done);
    var v1 := Effect(v, e);
    ShutStarts(v, e, env);
    if e.rc != ERROR_EAGAIN {
      ChangeOfActs(k, v, e, env, n, done);
      CloseViewCloses(k, v1, 0, env, n, done);
      ClosedIsLast(v1, v', env.send);
    } else {
      assert v' == v1 by {
        EagainStops(k, v, e, env, n, done);
      }
    }
  }

  lemma EagainStops(k: u32, v: View, e: Act, env: Env, n: nat, done: bool)
    requires n <= |env.arrivals| && e.rc == ERROR_EAGAIN
    ensures CloseView(k, v, e, env, n, done) == Effect(v, e)
  {
  }

  lemma ClosedIsLast(v: View, v': View, ans: SendAnswer)
    requires ClosedBy(v, v', ans) && PhaseIn(v) != Closed
    ensures CloseIsLast(v'.own)
  {
  }

  /** How a close in order begins. */
  lemma ShutStarts(v: View, e: Act, env: Env)
    requires Orderly(v) && !SaidClose(v.c) && CloseInOrder(v.c, env) && e == EofBeforeClose(v.c, env.eofSend)
    ensures var v1 := Effect(v, e);
            && PhaseIn(v1) != Closed && Shaped(e.c) && !e.c.local.close && e.c.close.state in {Idle, Created}
            && (e.rc == 0 || e.rc == ERROR_EAGAIN) && !v.c.local.close
  {
    if e.sent.Some? {
      PhaseExtends(v.own, e.sent.value);
    }
  }

  /** One call, from its own channel's point of view. */
  lemma OwnStepCloseIsLastIff(v: View, op: Op, h: Hint)
    requires op.call.Write? && v.c.write.state == Created ==> v.c.write.len <= |op.call.buf|
    requires h.n <= |op.env.arrivals| && Orderly(v) && Disciplined(v.c, op)
    ensures CloseIsLast(OwnStep(v, op, h).own) <==>
            CloseIsLast(v.own) && (SaidClose(v.c) ==> !SpeaksAfterClose(v.c, op, h.flushed))
  {
    hide OwnStep, SpeaksAfterClose, LateAct, CloseIsLast, Kinds, Spoken;
    var v' := OwnStep(v, op, h);
    OwnCallKeepsOrder(v, op, h);
    if SaidClose(v.c) {
      LateWords(v, op, h);
      LateActSpeaksIff(v.c, op, h.flushed);
      LateWordIsLast(v.own, v'.own, SentBy(LateAct(v.c, op, h.flushed)));
    } else {
      NotClosedIsLast(v.own);
      if op.call.Shut? || op.call.Free? {
        OwnShut(v, op, h);
      } else {
        OnlyShutCloses(v, op, h);
        NotClosedIsLast(v'.own);
      }
    }
  }

  lemma OwnShut(v: View, op: Op, h: Hint)
    requires h.n <= |op.env.arrivals| && Orderly(v) && Disciplined(v.c, op) && !SaidClose(v.c)
    requires op.call.Shut? || op.call.Free?
    ensures CloseIsLast(OwnStep(v, op, h).own)
  {
    ShutSaysCloseLast(op.k, v, op.env, h.n, h.done);
  }

  lemma NotClosedIsLast(own: seq<bytes>)
    requires PhaseOf(Kinds(own)) != Closed
    ensures CloseIsLast(own)
  {
  }

  /** A call on channel `k` that says nothing after CLOSE. */
  ghost predicate Quiet(w: World, m: Move, k: u32)
    requires Possible(w, m)
  {
    m.Do? && m.op.k == k && SaidClose(w.chans[k]) ==> !SpeaksAfterClose(w.chans[k], m.op, Found(w, m.op))
  }

  ghost predicate RunQuiet(w: World, moves: seq<Move>, k: u32)
    requires Legal(w, moves)
    decreases |moves|
  {
    moves == [] || (Quiet(w, moves[0], k) && RunQuiet(Moved(w, moves[0]), moves[1..], k))
  }

  /** What channel `k` sends during a call of another is replies. */
  lemma OthersLast(w: World, op: Op, k: u32)
    requires Callable(w, op) && k != op.k
    ensures CloseIsLast(Own(Step(w, op).wire, k)) <==> CloseIsLast(Own(w.wire, k))
  {
    StepReplied(w, op, k);
    RepliesAreAside(Own(w.wire, k), k, Step(w, op).heard[|w.heard|..]);
  }

  lemma StepCloseIsLastIff(w: World, op: Op, k: u32)
    requires Callable(w, op) && AllOrderly(w) && Disciplined(w.chans[op.k], op)
    ensures CloseIsLast(Own(Step(w, op).wire, k)) <==> CloseIsLast(Own(w.wire, k)) && Quiet(w, Do(op), k)
  {
    hide Step, OwnStep, CloseIsLast, SpeaksAfterClose, Disciplined, Orderly;
    if k != op.k {
      OthersLast(w, op, k);
    } else {
      var h := CallsAreLocal(w, op);
      OwnStepCloseIsLastIff(ViewOf(w, k), op, h);
      if !op.call.FlushStream? {
        FoundMatters(w.chans[k], op, h.flushed, Found(w, op));
      }
    }
  }

  /** What is found on the queue matters to a flush only. */
  lemma FoundMatters(c: Chan, op: Op, f: Flushed, g: Flushed)
    requires !op.call.FlushStream?
    ensures SpeaksAfterClose(c, op, f) <==> SpeaksAfterClose(c, op, g)
  {
  }

  lemma OpeningCloseIsLast(w: World, m: Move, k: u32)
    requires Possible(w, m) && !m.Do? && Grounded(w)
    ensures CloseIsLast(Own(Moved(w, m).wire, k)) <==> CloseIsLast(Own(w.wire, k))
  {
    hide CloseIsLast;
    if k != m.id {
      OpeningSame(w, m, k);
    } else {
      BlankLast(w, m);
    }
  }

  lemma BlankTrace(w: World, k: u32)
    requires Grounded(w) && IsNew(w, k)
    ensures Own(w.wire, k) == Replies(k, w.heard)
  {
    assert Blank(w, k);
  }

  lemma BlankLast(w: World, m: Move)
    requires Possible(w, m) && !m.Do? && Grounded(w)
    ensures CloseIsLast(Own(Moved(w, m).wire, m.id)) && CloseIsLast(Own(w.wire, m.id))
  {
    hide CloseIsLast, Spoken, Own, Grounded, OwnChan, PeerChan;
    var own := Own(w.wire, m.id);
    BlankTrace(w, m.id);
    RepliesAreAside([], m.id, w.heard);
    assert [] + own == own && PhaseOf(Kinds(own)) == Streaming;
    NotClosedIsLast(own);
    if m.OpenPeer? && m.answer == Accepted {
      var confirmed := ConfirmBytes(m.sender, m.id);
      OwnOfAppend(w.wire, Outgoing(m.id, confirmed), m.id);
      KindsExtend(own, confirmed);
      NotClosedIsLast(own + [confirmed]);
    }
  }

  lemma {:induction false} RunCloseIsLastIff(w: World, moves: seq<Move>, k: u32)
    requires Legal(w, moves) && AllOrderly(w) && RunDisciplined(w, moves)
    ensures CloseIsLast(Own(Run(w, moves).wire, k)) <==> CloseIsLast(Own(w.wire, k)) && RunQuiet(w, moves, k)
    decreases |moves|
  {
    hide CloseIsLast, AllOrderly, Quiet, Disciplined;
    if moves != [] {
      var m := moves[0];
      MoveCloseIsLastIff(w, m, k);
      MoveKeepsOrder(w, m);
      RunCloseIsLastIff(Moved(w, m), moves[1..], k);
    }
  }

  lemma MoveCloseIsLastIff(w: World, m: Move, k: u32)
    requires Possible(w, m) && AllOrderly(w) && MoveDisciplined(w, m)
    ensures CloseIsLast(Own(Moved(w, m).wire, k)) <==> CloseIsLast(Own(w.wire, k)) && Quiet(w, m, k)
  {
    hide CloseIsLast;
    if m.Do? {
      StepCloseIsLastIff(w, m.op, k);
    } else {
      OpeningCloseIsLast(w, m, k);
    }
  }

  /** After every disciplined run from a session without channels, and for every id, freed or not: CLOSE, once
      sent, is the last packet sent with that id but for replies to requests, if and only if no call of the
      run on the channel was one of those that still speak after CLOSE. */
  lemma CloseIsLastIff(moves: seq<Move>, k: u32)
    requires Legal(NoChannels(), moves) && RunDisciplined(NoChannels(), moves)
    ensures var w := Run(NoChannels(), moves);
            && (CloseIsLast(Own(w.wire, k)) <==> RunQuiet(NoChannels(), moves, k))
            && Answers(Own(w.wire, k)) == Replies(k, w.heard)
  {
    RunCloseIsLastIff(NoChannels(), moves, k);
    RequestsAnswered(moves, k);
  }

  // ---- After a channel is freed ----

  /** Freeing a channel (without blocking) ends its stream in order, leaves none of its data queued, and reports success,
      whatever went wrong with the close. */
  lemma FreeEndsInOrder(w: World, op: Op)
    requires Callable(w, op) && op.call.Free? && w.chans[op.k].local.id == op.k
    requires Orderly(ViewOf(w, op.k)) && Disciplined(w.chans[op.k], op)
    ensures var o := FreeCall(w, op.k, op.env);
            if o.rc == ERROR_EAGAIN then op.k in o.w.chans
            else
              && o.rc == 0 && op.k !in o.w.chans && AllHold(NoDataFor(op.k), o.w.packets)
              && (op.env.connected || w.chans[op.k].local.close ==>
                    DataThen(Kinds(Own(o.w.wire, op.k)), [MSG_CHANNEL_EOF] + [MSG_CHANNEL_CLOSE]))
  {
    var k := op.k;
    var o := BeforeFree(w, k, op.env);
    FreeShuts(w, op);
    if o.rc != ERROR_EAGAIN {
      OthersHold(AllData(k), o.w.packets);
      PhaseMeaning(Kinds(Own(o.w.wire, k)));
    }
  }

  lemma FreeShuts(w: World, op: Op)
    requires Callable(w, op) && op.call.Free? && w.chans[op.k].local.id == op.k
    requires Orderly(ViewOf(w, op.k)) && Disciplined(w.chans[op.k], op)
    ensures var o := BeforeFree(w, op.k, op.env);
            && op.k in o.w.chans && o.w.chans[op.k].local.id == op.k && Orderly(ViewOf(o.w, op.k))
            && (o.rc != ERROR_EAGAIN && (op.env.connected || w.chans[op.k].local.close) ==> o.w.chans[op.k].local.close)
  {
    var k := op.k;
    if !w.chans[k].local.close && op.env.connected {
      var n, done := ShutOwn(w, k, op.env);
      ShutKeepsOrder(k, ViewOf(w, k), op.env, n, done);
      ShutViewKeepsId(k, ViewOf(w, k), op.env, n, done);
      var o := CloseCall(w, k, op.env);
      assert ViewOf(o.w, k).c == o.w.chans[k];
    }
  }

  lemma {:induction false} OthersHold(f: Pick, q: Queue)
    ensures AllHold((p: Packet) => !f(p), Others(f, q))
  {
    if q != [] {
      OthersHold(f, q[1..]);
    }
  }

  /** A channel that left the session, in which its id is not handed out again, only replies to requests
      that still name it, and no data is queued for it, whatever the other channels do and whatever still
      arrives. */
  lemma {:induction false} GoneStaysSilent(w: World, moves: seq<Move>, k: u32)
    requires Legal(w, moves) && !IsNew(w, k) && Absent(w, k)
    ensures Absent(Run(w, moves), k) && Replied(w, Run(w, moves), k, false)
    decreases |moves|
  {
    hide Absent, Replied;
    if moves == [] {
      SameReplied(w, w, k, false);
    } else {
      var w1 := Moved(w, moves[0]);
      MoveStaysSilent(w, moves[0], k);
      GoneStaysSilent(w1, moves[1..], k);
      RepliedOn(w, w1, Run(w, moves), k, false);
    }
  }

  lemma MoveStaysSilent(w: World, m: Move, k: u32)
    requires Possible(w, m) && !IsNew(w, k) && Absent(w, k)
    ensures var w1 := Moved(w, m); !IsNew(w1, k) && Absent(w1, k) && Replied(w, w1, k, false)
  {
    if m.Do? {
      StepKeepsAbsent(w, m.op, k);
      StepLogs(w, m.op);
      LogsOpenNothing(w.ledger, Step(w, m.op).ledger, w.chans.Keys, k);
    } else {
      OpeningSame(w, m, k);
      SameReplied(w, Moved(w, m), k, false);
    }
  }

  lemma BeforeFreeKeepsId(w: World, k: u32, env: Env)
    requires k in w.chans && w.chans[k].local.id == k
    ensures var o := BeforeFree(w, k, env); k in o.w.chans && o.w.chans[k].local.id == k
  {
    if !w.chans[k].local.close && env.connected {
      var n, done := ShutOwn(w, k, env);
      ShutViewKeepsId(k, ViewOf(w, k), env, n, done);
      assert ViewOf(CloseCall(w, k, env).w, k).c == CloseCall(w, k, env).w.chans[k];
    }
  }

  lemma RemovedIsAbsent(w: World, k: u32)
    requires k in w.chans && w.chans[k].local.id == k
    ensures Absent(Remove(w, k), k)
  {
    OthersHold(AllData(k), w.packets);
  }

  lemma ListedIsKnown(w: World, k: u32)
    requires Grounded(w) && k in w.chans
    ensures !IsNew(w, k)
  {
  }

  lemma FreeLeavesAbsent(w: World, op: Op)
    requires Callable(w, op) && op.call.Free? && Grounded(w) && op.k !in Step(w, op).chans
    ensures Absent(Step(w, op), op.k) && !IsNew(Step(w, op), op.k)
  {
    hide CloseCall, Remove;
    var k := op.k;
    ListedIsKnown(w, k);
    StepLogs(w, op);
    LogsOpenNothing(w.ledger, Step(w, op).ledger, w.chans.Keys, k);
    BeforeFreeKeepsId(w, k, op.env);
    RemovedIsAbsent(BeforeFree(w, k, op.env).w, k);
  }

  /** After a channel is freed, whatever happened before and whatever comes after, no data is queued for it, and
      what is sent with its id is exactly one reply to each request handled since that names it and wants one:
      nothing if and only if there is no such request. */
  lemma FreedStaysSilent(before: seq<Move>, op: Op, after: seq<Move>)
    requires Legal(NoChannels(), before) && Callable(Run(NoChannels(), before), op) && op.call.Free?
    requires var w1 := Step(Run(NoChannels(), before), op); op.k !in w1.chans && Legal(w1, after)
    ensures var w1 := Step(Run(NoChannels(), before), op);
            var w2 := Run(w1, after);
            && Absent(w2, op.k) && |w1.heard| <= |w2.heard| && w2.heard[..|w1.heard|] == w1.heard
            && var since := w2.heard[|w1.heard|..];
               && Own(w2.wire, op.k) == Own(w1.wire, op.k) + Replies(op.k, since)
               && (Own(w2.wire, op.k) == Own(w1.wire, op.k) <==> forall i :: 0 <= i < |since| ==> !Demands(op.k, since[i]))
  {
    var w := Run(NoChannels(), before);
    var w1 := Step(w, op);
    RunKeepsGrounded(NoChannels(), before);
    FreeLeavesAbsent(w, op);
    GoneStaysSilent(w1, after, op.k);
    NoRepliesIff(op.k, Run(w1, after).heard[|w1.heard|..]);
  }

  /** A free takes the channel away unless it would block. */
  lemma FreeCode(w: World, op: Op)
    requires Callable(w, op) && op.call.Free?
    ensures Step(w, op) == FreeCall(w, op.k, op.env).w
    ensures op.k !in Step(w, op).chans ==> FreeCall(w, op.k, op.env).rc != ERROR_EAGAIN
  {
  }

  lemma FreeIsQuiet(w: World, op: Op)
    requires Callable(w, op) && op.call.Free?
    ensures Quiet(w, Do(op), op.k)
  {
  }

  /** The trace of a channel when it is freed. */
  lemma FreedTrace(w: World, op: Op)
    requires Callable(w, op) && AllOrderly(w) && op.call.Free? && Disciplined(w.chans[op.k], op)
    requires op.k !in Step(w, op).chans && (op.env.connected || w.chans[op.k].local.close)
    ensures var own := Own(Step(w, op).wire, op.k);
            && DataThen(Kinds(own), [MSG_CHANNEL_EOF] + [MSG_CHANNEL_CLOSE])
            && (EndsInClose(own) <==> CloseIsLast(Own(w.wire, op.k)))
  {
    hide Disciplined, DataThen, Orderly, SpeaksAfterClose, FreeCall;
    FreeCode(w, op);
    FreeEndsInOrder(w, op);
    StepCloseIsLastIff(w, op, op.k);
    FreeIsQuiet(w, op);
    PhaseMeaning(Kinds(Own(Step(w, op).wire, op.k)));
  }

  lemma FreedAnswers(before: seq<Move>, op: Op, after: seq<Move>)
    requires Legal(NoChannels(), before) && Callable(Run(NoChannels(), before), op)
    requires Legal(Step(Run(NoChannels(), before), op), after)
    ensures var w2 := Run(Step(Run(NoChannels(), before), op), after);
            Answers(Own(w2.wire, op.k)) == Replies(op.k, w2.heard)
  {
    hide Step;
    var w := Run(NoChannels(), before);
    RunAnswers(NoChannels(), before, op.k);
    MoveAnswers(w, Do(op), op.k);
    RunAnswers(Step(w, op), after, op.k);
  }

  /** The whole trace of a freed channel, however the run went on. If the run was disciplined up to the free, the
      channel has sent data, then one EOF, then exactly one CLOSE, and one reply to each request that wants one;
      CLOSE is the last packet that is no reply if and only if no call spoke after it. */
  lemma EndsForGood(before: seq<Move>, op: Op, after: seq<Move>)
    requires Legal(NoChannels(), before) && RunDisciplined(NoChannels(), before)
    requires var w := Run(NoChannels(), before);
             && Callable(w, op) && op.call.Free? && Disciplined(w.chans[op.k], op)
             && op.k !in Step(w, op).chans && Legal(Step(w, op), after)
             && (op.env.connected || w.chans[op.k].local.close)
    ensures var w2 := Run(Step(Run(NoChannels(), before), op), after);
            var own := Own(w2.wire, op.k);
            && DataThen(Kinds(own), [MSG_CHANNEL_EOF] + [MSG_CHANNEL_CLOSE])
            && (EndsInClose(own) <==> RunQuiet(NoChannels(), before, op.k))
            && Answers(own) == Replies(op.k, w2.heard)
  {
    hide DataThen, Disciplined, Orderly, SpeaksAfterClose, Step;
    var w := Run(NoChannels(), before);
    var w1 := Step(w, op);
    RunKeepsOrder(NoChannels(), before);
    FreedTrace(w, op);
    FreedStaysSilent(before, op, after);
    RepliesAreAside(Own(w1.wire, op.k), op.k, Run(w1, after).heard[|w1.heard|..]);
    RunCloseIsLastIff(NoChannels(), before, op.k);
    FreedAnswers(before, op, after);
  }
}
