/**
 Ending: data, then one EOF, then one CLOSE, over whole runs.
 */
module ChannelEnding {
  import opened Bytes
  import opened PacketQueue
  import opened ChannelSpec
  import opened ChannelTraces
  import opened ChannelSteps
  import opened ChannelRuns

  // ---- The order of a channel's packets ----

  datatype Phase = Streaming | Ended | Closed | Disorder

  function Next(p: Phase, kind: byte): Phase {
    if p == Streaming && (kind == MSG_CHANNEL_DATA || kind == MSG_CHANNEL_EXTENDED_DATA) then Streaming
    else if p == Streaming && kind == MSG_CHANNEL_EOF then Ended
    else if p == Ended && kind == MSG_CHANNEL_CLOSE then Closed
    else Disorder
  }

  /** How far a channel got that sent packets of these types. */
  function PhaseOf(kinds: bytes): Phase {
    if kinds == [] then Streaming else Next(PhaseOf(kinds[..|kinds| - 1]), kinds[|kinds| - 1])
  }

  /** What a phase stands for: any number of data packets, then the packets that ended them. */
  predicate DataThen(kinds: bytes, end: bytes) {
    && |end| <= |kinds|
    && kinds[|kinds| - |end|..] == end
    && forall i :: 0 <= i < |kinds| - |end| ==> kinds[i] == MSG_CHANNEL_DATA || kinds[i] == MSG_CHANNEL_EXTENDED_DATA
  }

  lemma DataThenOne(kinds: bytes, kind: byte, end: bytes, last: byte)
    ensures DataThen(kinds + [kind], end + [last]) <==> DataThen(kinds, end) && kind == last
    ensures DataThen(kinds + [kind], []) <==>
            DataThen(kinds, []) && (kind == MSG_CHANNEL_DATA || kind == MSG_CHANNEL_EXTENDED_DATA)
  {
    var all := kinds + [kind];
    if |end| <= |kinds| {
      assert all[|kinds| - |end|..] == kinds[|kinds| - |end|..] + [kind];
    }
    assert all[|kinds|] == kind && forall i :: 0 <= i < |kinds| ==> all[i] == kinds[i];
  }

  lemma {:induction false} PhaseMeaning(kinds: bytes)
    ensures PhaseOf(kinds) == Streaming <==> DataThen(kinds, [])
    ensures PhaseOf(kinds) == Ended <==> DataThen(kinds, [MSG_CHANNEL_EOF])
    ensures PhaseOf(kinds) == Closed <==> DataThen(kinds, [MSG_CHANNEL_EOF] + [MSG_CHANNEL_CLOSE])
  {
    if kinds != [] {
      var front, kind := kinds[..|kinds| - 1], kinds[|kinds| - 1];
      PhaseMeaning(front);
      assert kinds == front + [kind];
      DataThenOne(front, kind, [], MSG_CHANNEL_EOF);
      assert [] + [MSG_CHANNEL_EOF] == [MSG_CHANNEL_EOF];
      DataThenOne(front, kind, [MSG_CHANNEL_EOF], MSG_CHANNEL_CLOSE);
    }
  }

  function PhaseIn(v: View): Phase {
    PhaseOf(Kinds(v.own))
  }

  lemma PhaseExtends(own: seq<bytes>, data: bytes)
    ensures PhaseOf(Kinds(own + [data])) ==
            if IsStream(data) then Next(PhaseOf(Kinds(own)), data[0]) else PhaseOf(Kinds(own))
  {
  }

  /** The fields of a channel agree with what it has sent: EOF is marked exactly when it was sent,
      CLOSE was sent exactly when the channel is closed or waits for the peer's, a CLOSE is parked
      only between the two, and data is parked only before EOF. */
  predicate Orderly(v: View) {
    var p := PhaseIn(v);
    && Shaped(v.c)
    && p != Disorder
    && (v.c.local.eof <==> p != Streaming)
    && (v.c.local.close || v.c.close.state == Sent <==> p == Closed)
    && v.c.close.state in {Idle, Created, Sent}
    && (v.c.close.state == Created ==> p == Ended)
    && (v.c.write.state == Created ==> p == Streaming)
  }

  // ---- What keeps the order ----

  /** An act that sends nothing of the data stream and leaves its marks alone. */
  predicate Mute(c: Chan, a: Act) {
    && Shaped(a.c)
    && a.c.local.eof == c.local.eof && a.c.local.close == c.local.close
    && a.c.close.state == c.close.state && a.c.write.state == c.write.state
    && (a.sent.Some? ==> !IsStream(a.sent.value))
  }

  lemma MuteKeepsOrder(v: View, a: Act)
    requires Orderly(v) && Mute(v.c, a)
    ensures Orderly(Effect(v, a)) && PhaseIn(Effect(v, a)) == PhaseIn(v)
  {
  }

  lemma DeliverKeepsOrder(k: u32, v: View, arrivals: seq<Message>)
    requires Orderly(v)
    ensures Orderly(Deliver(k, v, arrivals)) && PhaseIn(Deliver(k, v, arrivals)) == PhaseIn(v)
  {
    DeliverFrame(k, v, arrivals);
    DeliverAside(k, v, arrivals);
  }

  lemma AdjustIsMute(c: Chan, adjustment: u32, force: bool, ans: SendAnswer)
    requires Shaped(c)
    ensures Mute(c, Adjust(c, adjustment, force, ans))
  {
  }

  lemma PrepareIsMute(c: Chan, buflen: nat, ans: SendAnswer)
    requires Shaped(c)
    ensures Mute(c, ReadPrepare(c, buflen, ans))
  {
    hide Adjust;
    AdjustIsMute(c.(read := Jump1), ReadAdjustment(c, buflen), false, ans);
  }

  lemma FlushIsMute(c: Chan, f: Flushed, ans: SendAnswer)
    requires Shaped(c)
    ensures Mute(c, FlushFinish(FlushMark(c, f), ans))
  {
    var d := FlushMark(c, f);
    var e := Consume(d, d.flush.bytes);
    RefundIsMute(e, ans);
    EndIsMute(e, RefundAct(e, ans), d.flush.bytes);
  }

  lemma EndIsMute(c: Chan, a: Act, n: nat)
    requires Mute(c, a)
    ensures Mute(c, FlushEnd(a, n))
  {
  }

  lemma RefundIsMute(c: Chan, ans: SendAnswer)
    requires Shaped(c)
    ensures Mute(c, RefundAct(c, ans))
  {
    AdjustIsMute(c, Wrap32(c.flush.refund), true, ans);
  }

  lemma SendStartIsMute(c: Chan, request: Text, message: Option<bytes>, ans: SendAnswer)
    requires Shaped(c)
    ensures Mute(c, SendStart(c, request, message, ans))
  {
  }

  lemma AwaitStartIsMute(c: Chan, reply: Reply)
    requires Shaped(c)
    ensures Mute(c, AwaitStart(c, reply))
  {
  }

  lemma StartKeepsOrder(k: u32, v: View, request: Text, message: Option<bytes>, env: Env)
    requires Orderly(v)
    ensures Orderly(StartView(k, v, request, message, env))
  {
    var a := SendStart(v.c, request, message, env.send);
    SendStartIsMute(v.c, request, message, env.send);
    MuteKeepsOrder(v, a);
    StartReplyKeepsOrder(Effect(v, a), env.reply);
    DeliverKeepsOrder(k, Effect(v, a), env.arrivals);
    StartReplyKeepsOrder(Deliver(k, Effect(v, a), env.arrivals), env.reply);
  }

  lemma StartReplyKeepsOrder(v: View, reply: Reply)
    requires Orderly(v)
    ensures Orderly(Effect(v, AwaitStart(v.c, reply)))
  {
    AwaitStartIsMute(v.c, reply);
    MuteKeepsOrder(v, AwaitStart(v.c, reply));
  }

  lemma OpeningIsMute(c: Chan, extra: bytes, ans: SendAnswer, reply: OpenReply)
    requires Shaped(c)
    ensures Mute(c, SendOpen(c, extra, ans)) && Mute(c, AwaitOpen(c, reply))
  {
  }

  lemma OpenKeepsOrder(k: u32, v: View, extra: bytes, env: Env)
    requires Orderly(v)
    ensures Orderly(OpenView(k, v, extra, env))
  {
    var a := SendOpen(v.c, extra, env.send);
    OpeningIsMute(v.c, extra, env.send, env.openReply);
    MuteKeepsOrder(v, a);
    DeliverKeepsOrder(k, Effect(v, a), env.arrivals);
    var v2 := Deliver(k, Effect(v, a), env.arrivals);
    OpeningIsMute(v2.c, extra, env.send, env.openReply);
    MuteKeepsOrder(v2, AwaitOpen(v2.c, env.openReply));
  }

  lemma ReadKeepsOrder(k: u32, v: View, buflen: nat, env: Env, taken: nat)
    requires Orderly(v)
    ensures Orderly(ReadView(k, v, ReadPrepare(v.c, buflen, env.send), env, taken))
  {
    var a := ReadPrepare(v.c, buflen, env.send);
    PrepareIsMute(v.c, buflen, env.send);
    MuteKeepsOrder(v, a);
    DeliverKeepsOrder(k, Effect(v, a), env.arrivals);
  }

  lemma FlushKeepsOrder(v: View, f: Flushed, env: Env)
    requires Orderly(v)
    ensures Orderly(FlushView(v, f, env))
  {
    FlushIsMute(v.c, f, env.send);
    MuteKeepsOrder(v, FlushFinish(FlushMark(v.c, f), env.send));
  }

  lemma ParkedKeepsOrder(v: View, buf: bytes, ans: SendAnswer)
    requires Orderly(v) && v.c.write.state == Created && v.c.write.len <= |buf|
    ensures Orderly(Effect(v, SendParked(v.c, buf, ans)))
  {
  }

  lemma WriteKeepsOrder(k: u32, v: View, stream: i32, buf: bytes, env: Env)
    requires Orderly(v) && (v.c.write.state == Created ==> v.c.write.len <= |buf|)
    ensures Orderly(WriteView(k, v, stream, buf, env))
  {
    if v.c.write.state == Created {
      ParkedKeepsOrder(v, buf, env.send);
    } else if v.c.write.state == Idle && !v.c.local.close && !v.c.local.eof {
      DeliverKeepsOrder(k, v, env.arrivals);
      DeliverFrame(k, v, env.arrivals);
      var v1 := Deliver(k, v, env.arrivals);
      var d := Park(v1.c, stream, |buf|);
      assert Orderly(v1.(c := d));
      ParkedKeepsOrder(v1.(c := d), buf, env.send);
    }
  }

  /** `channel_send_eof` keeps the order if and only if the EOF is not accepted, or it is the first
      and no write is parked. */
  lemma EofKeepsOrderIff(v: View, ans: SendAnswer)
    requires Orderly(v)
    ensures Orderly(Effect(v, SendEof(v.c, ans))) <==> ans == Accepted ==> !v.c.local.eof && v.c.write.state != Created
  {
    if ans == Accepted {
      PhaseExtends(v.own, EofBytes(v.c.remote.id));
    }
  }

  predicate IsClose(data: bytes) {
    |data| > 0 && data[0] == MSG_CHANNEL_CLOSE
  }

  /** The last packet sent, replies aside, is a CLOSE. */
  predicate EndsInClose(own: seq<bytes>) {
    var said := Spoken(own);
    |said| > 0 && IsClose(said[|said| - 1])
  }

  /** A CLOSE has just been sent. */
  predicate Closes(own: seq<bytes>, own': seq<bytes>) {
    Kinds(own') == Kinds(own) + [MSG_CHANNEL_CLOSE] && EndsInClose(own')
  }

  /** What the CLOSE half of a close makes of a channel, as far as the order is concerned. */
  ghost predicate ClosedBy(v: View, v': View, ans: SendAnswer) {
    var sent := v.c.close.state == Sent;
    && v'.c.write == v.c.write && v'.c.local.eof == v.c.local.eof && Shaped(v'.c)
    && (if !sent && ans == Accepted then Closes(v.own, v'.own)
        else Kinds(v'.own) == Kinds(v.own) && Spoken(v'.own) == Spoken(v.own))
    && (if !sent && ans == WouldBlock then !v'.c.local.close && v'.c.close.state == Created
        else if !sent && ans.Failed? then v'.c.local.close && v'.c.close.state == Idle
        else (v'.c.local.close && v'.c.close.state == Idle) || (!v'.c.local.close && v'.c.close.state == Sent))
  }

  lemma CloseViewCloses(k: u32, v: View, rc: int, env: Env, n: nat, done: bool)
    requires n <= |env.arrivals| && rc != ERROR_EAGAIN && Shaped(v.c) && !v.c.local.close
    requires v.c.close.state in {Idle, Created} || (v.c.close.state == Sent && rc == 0)
    ensures ClosedBy(v, CloseView(k, v, Act(v.c, rc, None), env, n, done), env.send)
  {
    hide ClosedBy, SendClose, Deliver;
    var a := SendClose(v.c, rc, env.send);
    var v2 := Effect(v, a);
    assert Effect(v, Act(v.c, rc, None)) == v;
    SendCloseCloses(v, rc, env.send);
    var v' := CloseView(k, v, Act(v.c, rc, None), env, n, done);
    if a.c.close.state == Sent && a.rc == 0 && env.connected {
      DeliverKeepsClosed(k, v, v2, env.arrivals[..n], env.send);
      var v3 := Deliver(k, v2, env.arrivals[..n]);
      assert v' == if done then v3.(c := MarkClosed(v3.c)) else v3;
    } else {
      assert v' == if a.rc != ERROR_EAGAIN then v2.(c := MarkClosed(v2.c)) else v2;
    }
  }

  lemma DeliverKeepsClosed(k: u32, v: View, v2: View, arrivals: seq<Message>, ans: SendAnswer)
    requires ClosedBy(v, v2, ans) && v2.c.close.state == Sent && !v2.c.local.close
    ensures var v3 := Deliver(k, v2, arrivals); ClosedBy(v, v3, ans) && ClosedBy(v, v3.(c := MarkClosed(v3.c)), ans)
  {
    hide Deliver, Kinds, Spoken;
    DeliverFrame(k, v2, arrivals);
    DeliverAside(k, v2, arrivals);
  }

  lemma CloseExtends(own: seq<bytes>, data: bytes)
    requires IsClose(data)
    ensures Closes(own, own + [data])
  {
    OwnExtends(own, data);
  }

  lemma SendCloseCloses(v: View, rc: int, ans: SendAnswer)
    requires rc != ERROR_EAGAIN && Shaped(v.c) && !v.c.local.close
    requires v.c.close.state in {Idle, Created} || (v.c.close.state == Sent && rc == 0)
    ensures var a := SendClose(v.c, rc, ans);
            var v2 := Effect(v, a);
            && (a.c.close.state == Sent && a.rc == 0 ==> ClosedBy(v, v2, ans) && !v2.c.local.close)
            && (a.rc == ERROR_EAGAIN ==> ClosedBy(v, v2, ans))
            && (a.rc != ERROR_EAGAIN ==> ClosedBy(v, v2.(c := MarkClosed(v2.c)), ans))
  {
    hide Closes, Kinds, Spoken;
    var a := SendClose(v.c, rc, ans);
    if a.sent.Some? {
      CloseExtends(v.own, a.sent.value);
    }
  }

  lemma PhaseOfClosed(v: View, v': View, ans: SendAnswer)
    requires ClosedBy(v, v', ans)
    ensures PhaseIn(v') == if v.c.close.state != Sent && ans == Accepted then Next(PhaseIn(v), MSG_CHANNEL_CLOSE) else PhaseIn(v)
  {
  }

  /** The CLOSE half of a close begun with EOF out of the way. */
  lemma CloseKeepsOrderIff(k: u32, v: View, env: Env, n: nat, done: bool)
    requires n <= |env.arrivals| && Orderly(v) && v.c.local.eof && !v.c.local.close
    ensures Orderly(CloseView(k, v, Act(v.c, 0, None), env, n, done)) <==>
            (v.c.close.state == Sent || !env.send.Failed?)
  {
    CloseViewCloses(k, v, 0, env, n, done);
    var v' := CloseView(k, v, Act(v.c, 0, None), env, n, done);
    PhaseOfClosed(v, v', env.send);
  }

  lemma ChangeOfActs(k: u32, v: View, e: Act, env: Env, n: nat, done: bool)
    requires n <= |env.arrivals| && e.rc == 0
    ensures CloseView(k, v, e, env, n, done) == CloseView(k, Effect(v, e), Act(e.c, 0, None), env, n, done)
  {
  }

  /** The sends of a close either succeed or would block, and no write is parked when EOF goes out. */
  predicate CloseInOrder(c: Chan, env: Env) {
    if c.local.eof then c.close.state == Sent || !env.send.Failed?
    else env.eofSend == WouldBlock || (env.eofSend == Accepted && c.write.state != Created && !env.send.Failed?)
  }

  /** A CLOSE sent, parked or given up before EOF, or after data was parked behind it. */
  lemma CloseOutOfOrder(k: u32, v: View, rc: int, env: Env, n: nat, done: bool)
    requires n <= |env.arrivals| && rc != ERROR_EAGAIN && !v.c.local.close
    requires v.c.close.state == Idle && Shaped(v.c) && PhaseIn(v) in {Streaming, Ended}
    requires PhaseIn(v) == Streaming || v.c.write.state == Created
    ensures !Orderly(CloseView(k, v, Act(v.c, rc, None), env, n, done))
  {
    hide CloseView, Closes, Kinds, Spoken;
    CloseViewCloses(k, v, rc, env, n, done);
    var v' := CloseView(k, v, Act(v.c, rc, None), env, n, done);
    PhaseOfClosed(v, v', env.send);
  }

  /** A close whose EOF failed goes on to send CLOSE without one, or to mark the channel closed. */
  lemma FailedEofBreaksOrder(k: u32, v: View, env: Env, n: nat, done: bool)
    requires n <= |env.arrivals| && Orderly(v) && !v.c.local.eof && !v.c.local.close && env.eofSend.Failed?
    ensures !Orderly(CloseView(k, v, EofBeforeClose(v.c, env.eofSend), env, n, done))
  {
    CloseOutOfOrder(k, v, ERROR_SOCKET_SEND, env, n, done);
  }

  lemma ParkedWriteBreaksClose(k: u32, v: View, env: Env, n: nat, done: bool)
    requires n <= |env.arrivals| && Orderly(v) && !v.c.local.eof && !v.c.local.close
    requires env.eofSend == Accepted && v.c.write.state == Created
    ensures !Orderly(CloseView(k, v, EofBeforeClose(v.c, env.eofSend), env, n, done))
  {
    var e := EofBeforeClose(v.c, env.eofSend);
    PhaseExtends(v.own, e.sent.value);
    ChangeOfActs(k, v, e, env, n, done);
    CloseOutOfOrder(k, Effect(v, e), 0, env, n, done);
  }

  /** A close of an open channel keeps the order if and only if its sends are in order. */
  lemma ShutKeepsOrderIff(k: u32, v: View, env: Env, n: nat, done: bool)
    requires n <= |env.arrivals| && Orderly(v) && !v.c.local.close
    ensures Orderly(ShutView(k, v, env, n, done)) <==> CloseInOrder(v.c, env)
  {
    var e := EofBeforeClose(v.c, env.eofSend);
    if v.c.local.eof {
      CloseKeepsOrderIff(k, v, env, n, done);
    } else if env.eofSend.Failed? {
      FailedEofBreaksOrder(k, v, env, n, done);
    } else if env.eofSend == Accepted && v.c.write.state == Created {
      ParkedWriteBreaksClose(k, v, env, n, done);
    } else if env.eofSend == Accepted {
      EofKeepsOrderIff(v, env.eofSend);
      ChangeOfActs(k, v, e, env, n, done);
      CloseKeepsOrderIff(k, Effect(v, e), env, n, done);
    }
  }

  lemma ShutKeepsOrder(k: u32, v: View, env: Env, n: nat, done: bool)
    requires n <= |env.arrivals| && Orderly(v) && (v.c.local.close || CloseInOrder(v.c, env))
    ensures Orderly(ShutView(k, v, env, n, done))
  {
    if !v.c.local.close {
      ShutKeepsOrderIff(k, v, env, n, done);
    }
  }

  // ---- Runs ----

  /** The guard of a call: one EOF, before the close; no write left parked when the stream is ended;
      and sends that succeed or would block. */
  predicate Disciplined(c: Chan, op: Op) {
    match op.call
    case EndOfData => op.env.eofSend == Accepted ==> !c.local.eof && c.write.state != Created
    case Shut => c.local.close || CloseInOrder(c, op.env)
    case Free => c.local.close || CloseInOrder(c, op.env)
    case _ => true
  }

  lemma ReceivingKeepsOrder(v: View, op: Op, h: Hint)
    requires h.n <= |op.env.arrivals| && Orderly(v)
    requires op.call.Read? || op.call.AdjustWindow? || op.call.FlushStream? || op.call.Merging? || op.call.Receive?
    ensures Orderly(OwnStep(v, op, h))
  {
    match op.call
    case Read(_, buflen) => ReadKeepsOrder(op.k, v, buflen, op.env, h.taken);
    case AdjustWindow(adjustment, force) =>
      AdjustIsMute(v.c, adjustment, force, op.env.send);
      MuteKeepsOrder(v, Adjust(v.c, adjustment, force, op.env.send));
    case FlushStream(_) => FlushKeepsOrder(v, h.flushed, op.env);
    case Merging(on) => MuteKeepsOrder(v, SetMerge(v.c, on));
    case Receive => DeliverKeepsOrder(op.k, v, op.env.arrivals);
  }

  lemma OwnCallKeepsOrder(v: View, op: Op, h: Hint)
    requires op.call.Write? && v.c.write.state == Created ==> v.c.write.len <= |op.call.buf|
    requires h.n <= |op.env.arrivals| && Orderly(v) && Disciplined(v.c, op)
    ensures Orderly(OwnStep(v, op, h))
  {
    var k, env := op.k, op.env;
    match op.call
    case Write(stream, buf) => WriteKeepsOrder(k, v, stream, buf, env);
    case EndOfData => EofKeepsOrderIff(v, env.eofSend);
    case Shut => ShutKeepsOrder(k, v, env, h.n, h.done);
    case Free => ShutKeepsOrder(k, v, env, h.n, h.done);
    case Start(request, message) => StartKeepsOrder(k, v, request, message, env);
    case Open(extra) => OpenKeepsOrder(k, v, extra, env);
    case _ => ReceivingKeepsOrder(v, op, h);
  }

  ghost predicate AllOrderly(w: World) {
    Grounded(w) && forall k :: k in w.chans ==> Orderly(ViewOf(w, k))
  }

  lemma StepKeepsOrder(w: World, op: Op, k: u32)
    requires Callable(w, op) && AllOrderly(w) && k in Step(w, op).chans && Disciplined(w.chans[op.k], op)
    ensures Orderly(ViewOf(Step(w, op), k))
  {
    StepKeepsKeys(w, op, k);
    if k == op.k {
      var h := CallsAreLocal(w, op);
      OwnCallKeepsOrder(ViewOf(w, k), op, h);
    } else {
      var n := CallsDoNotInterfere(w, op, k);
      DeliverKeepsOrder(k, ViewOf(w, k), op.env.arrivals[..n]);
    }
  }

  lemma FreshOrder(m: Move, heard: seq<Message>)
    requires !m.Do?
    ensures Orderly(Fresh(m, Replies(m.id, heard)))
  {
    FreshTrace(m, m.id, heard);
  }

  lemma OpeningKeepsOrder(w: World, m: Move, k: u32)
    requires Possible(w, m) && !m.Do? && AllOrderly(w) && k in Moved(w, m).chans
    ensures Orderly(ViewOf(Moved(w, m), k))
  {
    if k != m.id {
      OpeningSame(w, m, k);
    } else {
      OpeningFresh(w, m);
      FreshOrder(m, w.heard);
    }
  }

  ghost predicate MoveDisciplined(w: World, m: Move)
    requires Possible(w, m)
  {
    m.Do? ==> Disciplined(w.chans[m.op.k], m.op)
  }

  lemma MoveKeepsOrder(w: World, m: Move)
    requires Possible(w, m) && AllOrderly(w) && MoveDisciplined(w, m)
    ensures AllOrderly(Moved(w, m))
  {
    MoveKeepsGrounded(w, m);
    var w1 := Moved(w, m);
    forall k | k in w1.chans
      ensures Orderly(ViewOf(w1, k))
    {
      if m.Do? {
        StepKeepsOrder(w, m.op, k);
      } else {
        OpeningKeepsOrder(w, m, k);
      }
    }
  }

  ghost predicate RunDisciplined(w: World, moves: seq<Move>)
    requires Legal(w, moves)
    decreases |moves|
  {
    moves == [] || (MoveDisciplined(w, moves[0]) && RunDisciplined(Moved(w, moves[0]), moves[1..]))
  }

  /** The packets with which a channel in this state has ended its stream. */
  function EndOf(c: Chan): bytes {
    if !c.local.eof then []
    else if c.local.close || c.close.state == Sent then [MSG_CHANNEL_EOF] + [MSG_CHANNEL_CLOSE]
    else [MSG_CHANNEL_EOF]
  }

  lemma {:induction false} RunKeepsOrder(w: World, moves: seq<Move>)
    requires Legal(w, moves) && AllOrderly(w) && RunDisciplined(w, moves)
    ensures AllOrderly(Run(w, moves))
    decreases |moves|
  {
    if moves != [] {
      MoveKeepsOrder(w, moves[0]);
      RunKeepsOrder(Moved(w, moves[0]), moves[1..]);
    }
  }

  /** Close ordering, section 5.3 of RFC 4254. After every disciplined run from a session without channels, what
      a channel has sent of its stream is data, then one EOF once it marked its end, then one CLOSE once it
      closed. */
  lemma OrderHolds(moves: seq<Move>, k: u32)
    requires Legal(NoChannels(), moves) && RunDisciplined(NoChannels(), moves) && k in Run(NoChannels(), moves).chans
    ensures var v := ViewOf(Run(NoChannels(), moves), k); DataThen(Kinds(v.own), EndOf(v.c))
  {
    RunKeepsOrder(NoChannels(), moves);
    var v := ViewOf(Run(NoChannels(), moves), k);
    assert Orderly(v);
    PhaseMeaning(Kinds(v.own));
  }

  // ---- What a close reports ----

  lemma {:induction false} AwaitCloseMeans(w: World, k: u32, arrivals: seq<Message>, readEnd: ReadEnd)
    requires k in w.chans
    ensures var o := AwaitClose(w, k, arrivals, readEnd);
            && o.w.chans[k].local.close == w.chans[k].local.close
            && (o.rc == 0 ==> o.w.chans[k].remote.close || readEnd == 0)
            && (o.rc > 0 ==> exists i :: 0 <= i < |arrivals| && arrivals[i][0] == o.rc)
            && (o.rc < 0 ==> o.rc == readEnd)
    decreases |arrivals|
  {
    hide PacketAdd;
    if !w.chans[k].remote.close && arrivals != [] {
      var w1 := PacketAdd(w, arrivals[0]);
      AddDelivers(w, arrivals[0], k);
      assert ViewOf(w1, k).c == w1.chans[k];
      if arrivals[0][0] == 0 {
        AwaitCloseMeans(w1, k, arrivals[1..], readEnd);
        var o := AwaitClose(w1, k, arrivals[1..], readEnd);
        if o.rc > 0 {
          var i :| 0 <= i < |arrivals[1..]| && arrivals[1..][i][0] == o.rc;
          assert arrivals[i + 1][0] == o.rc;
        }
      }
    }
  }

  lemma CloseOnMeans(w: World, k: u32, before: int, env: Env)
    requires k in w.chans && !w.chans[k].local.close && w.chans[k].close.state in {Idle, Created, Sent}
    requires before == 0 || before == ERROR_SOCKET_SEND
    ensures var c, o := w.chans[k], CloseOn(w, k, before, env);
            && o.rc <= 0 && (o.rc == ERROR_EAGAIN <==> !o.w.chans[k].local.close)
            && (o.rc == 0 ==> c.close.state == Sent || env.send == Accepted)
            && (o.rc == 0 && before == 0 && env.connected ==>
                  o.w.chans[k].remote.close || env.readEnd == 0 || exists i :: 0 <= i < |env.arrivals| && env.arrivals[i][0] > 0)
  {
    hide AwaitClose, PacketAdd;
    var w1 := Apply(w, k, SendClose(w.chans[k], before, env.send));
    AwaitCloseMeans(w1, k, env.arrivals, env.readEnd);
  }

  /** A close that would block leaves the channel open; any other marks it closed, whatever it reports. One that
      reports success had its CLOSE accepted, and, over a connection that lasts and with its EOF out of the way,
      has seen the peer's CLOSE, the end of the transport, or some message that ends the wait. */
  lemma CloseMeans(w: World, k: u32, env: Env)
    requires k in w.chans && !w.chans[k].local.close && w.chans[k].close.state in {Idle, Created, Sent}
    ensures var c, o := w.chans[k], CloseCall(w, k, env);
            && o.rc <= 0 && (o.rc == ERROR_EAGAIN <==> !o.w.chans[k].local.close)
            && (o.rc == 0 ==> c.close.state == Sent || env.send == Accepted)
            && (o.rc == 0 && env.connected && (c.local.eof || env.eofSend == Accepted) ==>
                  o.w.chans[k].remote.close || env.readEnd == 0 || exists i :: 0 <= i < |env.arrivals| && env.arrivals[i][0] > 0)
  {
    hide CloseOn;
    var e := EofBeforeClose(w.chans[k], env.eofSend);
    if e.rc != ERROR_EAGAIN {
      CloseOnMeans(Apply(w, k, e), k, e.rc, env);
    }
  }

  /** A channel that is closed already is left alone, with success. */
  lemma CloseAgain(w: World, k: u32, env: Env)
    requires k in w.chans && w.chans[k].local.close && w.chans[k].close.state == Idle
    ensures CloseCall(w, k, env) == Outcome(w, 0)
  {
    assert w.chans[k := w.chans[k]] == w.chans;
  }

  // ---- Where the order fails ----

  /** A second EOF, or an EOF that overtakes a parked write, puts the packets out of order: the former at
      once, the latter as soon as the write is resumed. */
  lemma EofOutOfOrder(v: View, buf: bytes)
    requires Orderly(v) && (v.c.write.state == Created ==> v.c.write.len <= |buf|)
    ensures var v1 := Effect(v, SendEof(v.c, Accepted));
            if v.c.local.eof then PhaseIn(v1) == Disorder
            else v.c.write.state == Created ==> PhaseIn(Effect(v1, SendParked(v1.c, buf, Accepted))) == Disorder
  {
    var v1 := Effect(v, SendEof(v.c, Accepted));
    PhaseExtends(v.own, EofBytes(v.c.remote.id));
    if v.c.write.state == Created {
      PhaseExtends(v1.own, v.c.write.packet + buf[..v.c.write.len]);
    }
  }

  /** A close whose EOF fails goes on to CLOSE, and waits for the peer's. */
  lemma CloseWithoutEof(k: u32, v: View, env: Env)
    requires Orderly(v) && !v.c.local.eof && v.c.close.state == Idle
    requires env.eofSend.Failed? && env.send == Accepted && env.connected
    ensures var v1 := ShutView(k, v, env, 0, false);
            && v1.own == v.own + [CloseBytes(v.c.remote.id)] && v1.c.close.state == Sent
            && !v1.c.local.eof && !v1.c.local.close
  {
    hide Deliver;
    assert env.arrivals[..0] == [];
    DeliverFrame(k, Effect(v, SendClose(v.c, ERROR_SOCKET_SEND, env.send)), []);
    assert Replies(k, []) == [];
  }

  /** Resumed, it sends the EOF it owes. */
  lemma EofWhenResumed(k: u32, v: View, env: Env)
    requires !v.c.local.eof && !v.c.local.close && v.c.close.state == Sent && env.eofSend == Accepted
    ensures ShutView(k, v, env, 0, false).own == v.own + [EofBytes(v.c.remote.id)]
  {
    hide Deliver;
    var e := EofBeforeClose(v.c, env.eofSend);
    assert env.arrivals[..0] == [];
    DeliverFrame(k, Effect(Effect(v, e), SendClose(e.c, 0, env.send)), []);
    assert Replies(k, []) == [];
  }

  /** A close whose EOF fails and that then blocks, waiting for the peer's CLOSE, sends EOF after CLOSE
      when it is resumed. */
  lemma EofAfterClose(k: u32, v: View, env: Env, later: Env)
    requires Orderly(v) && !v.c.local.eof && v.c.close.state == Idle
    requires env.eofSend.Failed? && env.send == Accepted && env.connected && later.eofSend == Accepted
    ensures var v' := ShutView(k, ShutView(k, v, env, 0, false), later, 0, false);
            Kinds(v'.own) == Kinds(v.own) + [MSG_CHANNEL_CLOSE] + [MSG_CHANNEL_EOF]
  {
    hide ShutView;
    var v1 := ShutView(k, v, env, 0, false);
    CloseWithoutEof(k, v, env);
    EofWhenResumed(k, v1, later);
    OwnExtends(v.own, CloseBytes(v.c.remote.id));
    OwnExtends(v1.own, EofBytes(v1.c.remote.id));
  }
}
