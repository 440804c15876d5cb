/**
 Runs: any sequence of openings, by this side or by the peer, and of calls on any channels of a
 session, each with its own surroundings, from a session that has no channel yet.
 */
module ChannelRuns {
  import opened Bytes
  import opened PacketQueue
  import opened ChannelSpec
  import opened ChannelTraces
  import opened ChannelSteps

  /** One move of a run. The first call of `_libssh2_channel_open` is `OpenOwn` followed by a call of
      `Open`; the calls that resume it are calls of `Open`. */
  datatype Move =
    | OpenOwn(id: u32, kind: Text, window: u32, packetSize: u32)
    | OpenPeer(id: u32, sender: u32, window: u32, packetSize: u32, answer: SendAnswer)
    | Do(op: Op)

  /** The id was never handed out. */
  predicate IsNew(w: World, k: u32) {
    Opened(k) !in w.ledger
  }

  predicate Possible(w: World, m: Move) {
    match m
    case Do(op) => Callable(w, op)
    case _ => IsNew(w, m.id)
  }

  function Moved(w: World, m: Move): World
    requires Possible(w, m)
  {
    match m
    case OpenOwn(id, kind, window, packetSize) => Enter(w, id, OwnChan(kind, id, window, packetSize))
    case OpenPeer(id, sender, window, packetSize, answer) => PeerOpen(w, id, sender, window, packetSize, answer)
    case Do(op) => Step(w, op)
  }

  /** The two moves of an opening call are what the call does. */
  lemma OpenIsTwoMoves(w: World, k: u32, kind: Text, window: u32, packetSize: u32, extra: bytes, env: Env)
    requires IsNew(w, k)
    ensures var w1 := Moved(w, OpenOwn(k, kind, window, packetSize));
            Possible(w1, Do(Op(k, Open(extra), env))) &&
            OpenCall(w, k, kind, window, packetSize, extra, env).w == Moved(w1, Do(Op(k, Open(extra), env)))
  {
  }

  predicate Legal(w: World, moves: seq<Move>)
    decreases |moves|
  {
    moves == [] || (Possible(w, moves[0]) && Legal(Moved(w, moves[0]), moves[1..]))
  }

  function Run(w: World, moves: seq<Move>): World
    requires Legal(w, moves)
    decreases |moves|
  {
    if moves == [] then w else Run(Moved(w, moves[0]), moves[1..])
  }

  // ---- What a call records ----

  /** No more is kept of a message than it holds. */
  predicate Sane(e: Entry) {
    e.Received? ==> e.kept <= SizeIn(e.message)
  }

  /** Between two ledgers, only receipts and grants of known channels were entered. */
  ghost predicate Logs(before: Ledger, after: Ledger, keys: set<u32>) {
    && |before| <= |after| && after[..|before|] == before
    && forall i :: |before| <= i < |after| ==> !after[i].Opened? && after[i].id in keys && Sane(after[i])
  }

  lemma LogsOn(a: Ledger, b: Ledger, c: Ledger, keys: set<u32>)
    requires Logs(a, b, keys) && Logs(b, c, keys)
    ensures Logs(a, c, keys)
  {
    assert c[..|a|] == c[..|b|][..|a|];
  }

  lemma AddLogs(w: World, m: Message)
    ensures Logs(w.ledger, PacketAdd(w, m).ledger, w.chans.Keys)
  {
  }

  lemma {:induction false} DrainLogs(w: World, arrivals: seq<Message>)
    ensures Logs(w.ledger, Drain(w, arrivals).ledger, w.chans.Keys)
    decreases |arrivals|
  {
    if arrivals != [] {
      var w1 := PacketAdd(w, arrivals[0]);
      AddLogs(w, arrivals[0]);
      DrainLogs(w1, arrivals[1..]);
      LogsOn(w.ledger, w1.ledger, Drain(w, arrivals).ledger, w.chans.Keys);
    }
  }

  lemma {:induction false} AwaitLogs(w: World, k: u32, arrivals: seq<Message>, readEnd: ReadEnd)
    requires k in w.chans
    ensures Logs(w.ledger, AwaitClose(w, k, arrivals, readEnd).w.ledger, w.chans.Keys)
    decreases |arrivals|
  {
    if !w.chans[k].remote.close && arrivals != [] {
      var w1 := PacketAdd(w, arrivals[0]);
      AddLogs(w, arrivals[0]);
      AwaitLogs(w1, k, arrivals[1..], readEnd);
      LogsOn(w.ledger, w1.ledger, AwaitClose(w1, k, arrivals[1..], readEnd).w.ledger, w.chans.Keys);
    }
  }

  lemma ShutLogs(w: World, k: u32, env: Env)
    requires k in w.chans
    ensures Logs(w.ledger, CloseCall(w, k, env).w.ledger, w.chans.Keys)
  {
    var c := w.chans[k];
    if !c.local.close {
      var e := EofBeforeClose(c, env.eofSend);
      AwaitLogs(Apply(Apply(w, k, e), k, SendClose(e.c, e.rc, env.send)), k, env.arrivals, env.readEnd);
    }
  }

  lemma OpenLogs(w: World, k: u32, extra: bytes, env: Env)
    requires k in w.chans
    ensures Logs(w.ledger, OpenOn(w, k, extra, env).w.ledger, w.chans.Keys)
  {
    DrainLogs(Apply(w, k, SendOpen(w.chans[k], extra, env.send)), env.arrivals);
  }

  lemma StartLogs(w: World, op: Op)
    requires Callable(w, op) && op.call.Start?
    ensures Logs(w.ledger, Step(w, op).ledger, w.chans.Keys)
  {
    DrainLogs(Apply(w, op.k, SendStart(w.chans[op.k], op.call.request, op.call.message, op.env.send)), op.env.arrivals);
  }

  lemma ReadLogs(w: World, op: Op)
    requires Callable(w, op) && op.call.Read?
    ensures Logs(w.ledger, Step(w, op).ledger, w.chans.Keys)
  {
    DrainLogs(Apply(w, op.k, ReadPrepare(w.chans[op.k], op.call.buflen, op.env.send)), op.env.arrivals);
  }

  lemma WriteLogs(w: World, op: Op)
    requires Callable(w, op) && op.call.Write?
    ensures Logs(w.ledger, Step(w, op).ledger, w.chans.Keys)
  {
    DrainLogs(w, op.env.arrivals);
  }

  lemma StepLogs(w: World, op: Op)
    requires Callable(w, op)
    ensures Logs(w.ledger, Step(w, op).ledger, w.chans.Keys)
  {
    match op.call
    case Write(_, _) => WriteLogs(w, op);
    case Read(_, _) => ReadLogs(w, op);
    case Start(_, _) => StartLogs(w, op);
    case Open(extra) => OpenLogs(w, op.k, extra, op.env);
    case Shut => ShutLogs(w, op.k, op.env);
    case Free => ShutLogs(w, op.k, op.env);
    case Receive => DrainLogs(w, op.env.arrivals);
    case _ =>
  }

  lemma LogsOpenNothing(before: Ledger, after: Ledger, keys: set<u32>, k: u32)
    requires Logs(before, after, keys)
    ensures Opened(k) in before <==> Opened(k) in after
  {
    if Opened(k) in before {
      var i :| 0 <= i < |before| && before[i] == Opened(k);
      assert after[i] == after[..|before|][i];
    }
  }

  lemma {:induction false} LogsCount(before: Ledger, after: Ledger, keys: set<u32>, j: u32)
    requires Logs(before, after, keys) && j !in keys
    ensures ReceivedBytes(after, j) == ReceivedBytes(before, j) && KeptBytes(after, j) == KeptBytes(before, j)
    ensures GrantedBytes(after, j) == GrantedBytes(before, j)
    decreases |after|
  {
    if |after| > |before| {
      var front := after[..|after| - 1];
      assert front[..|before|] == after[..|before|];
      LogsCount(before, front, keys, j);
    } else {
      assert after == before;
    }
  }

  // ---- For whom a call sends ----

  lemma DrainRepliedOn(w: World, w1: World, arrivals: seq<Message>, j: u32, own: bool)
    requires Replied(w, w1, j, own)
    ensures Replied(w, Drain(w1, arrivals), j, own)
  {
    DrainReplied(w1, arrivals, j);
    RepliedOwn(w1, Drain(w1, arrivals), j, own);
    RepliedOn(w, w1, Drain(w1, arrivals), j, own);
  }

  lemma ApplyRepliedOn(w: World, w1: World, k: u32, a: Act, j: u32)
    requires Replied(w, w1, j, j == k) && (a.sent.Some? && j == k ==> !IsFailure(a.sent.value))
    ensures Replied(w, Apply(w1, k, a), j, j == k)
  {
    ApplyReplied(w1, k, a, j);
    RepliedOn(w, w1, Apply(w1, k, a), j, j == k);
  }

  /** A step that neither sends nor handles a message. */
  lemma SameRepliedOn(w: World, w1: World, w2: World, j: u32, own: bool)
    requires Replied(w, w1, j, own) && w2.wire == w1.wire && w2.heard == w1.heard
    ensures Replied(w, w2, j, own)
  {
  }

  lemma WriteReplied(w: World, op: Op, j: u32)
    requires Callable(w, op) && op.call.Write? && (j == op.k ==> Shaped(w.chans[op.k]))
    ensures Replied(w, Step(w, op), j, j == op.k)
  {
    hide Replied, Drain, Apply;
    var k, buf, c := op.k, op.call.buf, w.chans[op.k];
    SameReplied(w, w, j, j == k);
    if c.write.state == Created {
      ApplyRepliedOn(w, w, k, SendParked(c, buf, op.env.send), j);
    } else if c.write.state == Idle && !c.local.close && !c.local.eof {
      var w1 := Drain(w, op.env.arrivals);
      DrainRepliedOn(w, w, op.env.arrivals, j, j == k);
      ApplyRepliedOn(w, w1, k, SendParked(Park(w1.chans[k], op.call.stream, |buf|), buf, op.env.send), j);
    }
  }

  lemma PrepareSends(c: Chan, buflen: nat, ans: SendAnswer)
    requires Shaped(c)
    ensures var a := ReadPrepare(c, buflen, ans); a.sent.Some? ==> !IsFailure(a.sent.value)
  {
  }

  lemma ReadReplied(w: World, k: u32, stream: i32, buflen: nat, env: Env, j: u32)
    requires k in w.chans && (j == k ==> Shaped(w.chans[k]))
    ensures Replied(w, ReadCall(w, k, stream, buflen, env).w, j, j == k)
  {
    hide Replied, Drain, Apply, ReadPrepare;
    var a := ReadPrepare(w.chans[k], buflen, env.send);
    var w1 := Apply(w, k, a);
    SameReplied(w, w, j, j == k);
    if j == k {
      PrepareSends(w.chans[k], buflen, env.send);
    }
    ApplyRepliedOn(w, w, k, a, j);
    if a.rc == 0 {
      var w2 := Drain(w1, env.arrivals);
      DrainRepliedOn(w, w1, env.arrivals, j, j == k);
      SameRepliedOn(w, w2, ReadCall(w, k, stream, buflen, env).w, j, j == k);
    }
  }

  lemma FlushSends(c: Chan, f: Flushed, ans: SendAnswer)
    requires Shaped(c)
    ensures var a := FlushAct(c, f, ans); a.sent.Some? ==> !IsFailure(a.sent.value)
  {
  }

  lemma FlushReplied(w: World, k: u32, stream: i32, env: Env, j: u32)
    requires k in w.chans && (j == k ==> Shaped(w.chans[k]))
    ensures Replied(w, FlushCall(w, k, stream, env).w, j, j == k)
  {
    hide Replied, FlushAct, Flush;
    var c := w.chans[k];
    var f := Flush(c.local.id, stream, w.packets);
    var w1 := if c.flush.state == Idle then w.(packets := f.left) else w;
    SameReplied(w, w1, j, j == k);
    if j == k {
      FlushSends(c, f, env.send);
    }
    ApplyRepliedOn(w, w1, k, FlushAct(c, f, env.send), j);
  }

  lemma CloseSends(c: Chan, rc: int, ans: SendAnswer)
    requires Shaped(c)
    ensures var a := SendClose(c, rc, ans); a.sent.Some? ==> !IsFailure(a.sent.value)
  {
  }

  lemma CloseOnReplied(w: World, k: u32, before: int, env: Env, j: u32)
    requires k in w.chans && (j == k ==> Shaped(w.chans[k]))
    ensures Replied(w, CloseOn(w, k, before, env).w, j, j == k)
  {
    hide Replied, Apply, SendClose, AwaitClose;
    var a := SendClose(w.chans[k], before, env.send);
    var w1 := Apply(w, k, a);
    SameReplied(w, w, j, j == k);
    if j == k {
      CloseSends(w.chans[k], before, env.send);
    }
    ApplyRepliedOn(w, w, k, a, j);
    var waits := a.c.close.state == Sent && a.rc == 0 && env.connected;
    var o := if waits then AwaitClose(w1, k, env.arrivals, env.readEnd) else Outcome(w1, a.rc);
    if waits {
      AwaitReplied(w1, k, env.arrivals, env.readEnd, j);
      RepliedOwn(w1, o.w, j, j == k);
      RepliedOn(w, w1, o.w, j, j == k);
    }
    SameRepliedOn(w, o.w, CloseOn(w, k, before, env).w, j, j == k);
  }

  lemma ShutReplied(w: World, k: u32, env: Env, j: u32)
    requires k in w.chans && (j == k ==> Shaped(w.chans[k]))
    ensures Replied(w, CloseCall(w, k, env).w, j, j == k)
  {
    hide Replied, CloseOn;
    var c := w.chans[k];
    SameReplied(w, w, j, j == k);
    if c.local.close {
      SameRepliedOn(w, w, CloseCall(w, k, env).w, j, j == k);
    } else {
      var e := EofBeforeClose(c, env.eofSend);
      var w1 := Apply(w, k, e);
      ApplyRepliedOn(w, w, k, e, j);
      if e.rc != ERROR_EAGAIN {
        CloseOnReplied(w1, k, e.rc, env, j);
        RepliedOn(w, w1, CloseOn(w1, k, e.rc, env).w, j, j == k);
      }
    }
  }

  lemma FreeReplied(w: World, k: u32, env: Env, j: u32)
    requires k in w.chans && (j == k ==> Shaped(w.chans[k]))
    ensures Replied(w, FreeCall(w, k, env).w, j, j == k)
  {
    hide Replied, CloseCall;
    SameReplied(w, w, j, j == k);
    ShutReplied(w, k, env, j);
    var o := BeforeFree(w, k, env);
    SameRepliedOn(w, o.w, FreeCall(w, k, env).w, j, j == k);
  }

  lemma StartReplied(w: World, op: Op, j: u32)
    requires Callable(w, op) && op.call.Start? && (j == op.k ==> Shaped(w.chans[op.k]))
    ensures Replied(w, Step(w, op), j, j == op.k)
  {
    hide Replied, Drain, Apply;
    var k, c, env := op.k, w.chans[op.k], op.env;
    SameReplied(w, w, j, j == k);
    if c.process.state != End {
      var a := SendStart(c, op.call.request, op.call.message, env.send);
      var w1 := Apply(w, k, a);
      ApplyRepliedOn(w, w, k, a, j);
      if a.rc == 0 {
        DrainRepliedOn(w, w1, env.arrivals, j, j == k);
        var w2 := if w1.chans[k].process.state == Sent then Drain(w1, env.arrivals) else w1;
        ApplyRepliedOn(w, w2, k, AwaitStart(w2.chans[k], env.reply), j);
      }
    }
  }

  lemma OpenReplied(w: World, k: u32, extra: bytes, env: Env, j: u32)
    requires k in w.chans && (j == k ==> Shaped(w.chans[k]))
    ensures Replied(w, OpenOn(w, k, extra, env).w, j, j == k)
  {
    hide Replied, Drain, Apply;
    var a := SendOpen(w.chans[k], extra, env.send);
    var w1 := Apply(w, k, a);
    SameReplied(w, w, j, j == k);
    ApplyRepliedOn(w, w, k, a, j);
    if a.rc == 0 {
      var w2 := Drain(w1, env.arrivals);
      DrainRepliedOn(w, w1, env.arrivals, j, j == k);
      ApplyRepliedOn(w, w2, k, AwaitOpen(w2.chans[k], env.openReply), j);
    }
    SameRepliedOn(w, OpenTry(w, k, extra, env).w, OpenOn(w, k, extra, env).w, j, j == k);
  }

  lemma AdjustSends(c: Chan, adjustment: u32, force: bool, ans: SendAnswer)
    requires Shaped(c)
    ensures var a := Adjust(c, adjustment, force, ans); a.sent.Some? ==> !IsFailure(a.sent.value)
  {
  }

  lemma ActingReplied(w: World, op: Op, j: u32)
    requires Callable(w, op) && (j == op.k ==> Shaped(w.chans[op.k]))
    requires op.call.AdjustWindow? || op.call.Merging? || op.call.EndOfData?
    ensures Replied(w, Step(w, op), j, j == op.k)
  {
    hide Replied, Adjust;
    var k, c := op.k, w.chans[op.k];
    match op.call
    case AdjustWindow(adjustment, force) =>
      if j == k {
        AdjustSends(c, adjustment, force, op.env.send);
      }
      ApplyReplied(w, k, Adjust(c, adjustment, force, op.env.send), j);
    case Merging(on) => ApplyReplied(w, k, SetMerge(c, on), j);
    case EndOfData => ApplyReplied(w, k, SendEof(c, op.env.eofSend), j);
  }

  /** During a call, every channel replies once to each request handled that demands it, and a channel that is not
      the caller's sends nothing else. */
  lemma StepReplied(w: World, op: Op, j: u32)
    requires Callable(w, op) && (j == op.k ==> Shaped(w.chans[op.k]))
    ensures Replied(w, Step(w, op), j, j == op.k)
  {
    hide Replied, Drain, WriteCall, ReadCall, FlushCall, CloseCall, FreeCall, StartCall, OpenOn;
    var k, env := op.k, op.env;
    match op.call
    case Write(_, _) => WriteReplied(w, op, j);
    case Read(stream, buflen) => ReadReplied(w, k, stream, buflen, env, j);
    case FlushStream(which) => FlushReplied(w, k, which, env, j);
    case Shut => ShutReplied(w, k, env, j);
    case Free => FreeReplied(w, k, env, j);
    case Start(_, _) => StartReplied(w, op, j);
    case Open(extra) => OpenReplied(w, k, extra, env, j);
    case Receive => SameReplied(w, w, j, j == k); DrainRepliedOn(w, w, env.arrivals, j, j == k);
    case _ => ActingReplied(w, op, j);
  }

  // ---- Channels that are not there ----

  /** A channel that left the session never comes back. */
  lemma {:induction false} GoneStaysGone(w: World, moves: seq<Move>, k: u32)
    requires Legal(w, moves) && !IsNew(w, k) && k !in w.chans
    ensures k !in Run(w, moves).chans
    decreases |moves|
  {
    if moves != [] {
      MoveKeepsGone(w, moves[0], k);
      GoneStaysGone(Moved(w, moves[0]), moves[1..], k);
    }
  }

  lemma MoveKeepsGone(w: World, m: Move, k: u32)
    requires Possible(w, m) && !IsNew(w, k) && k !in w.chans
    ensures !IsNew(Moved(w, m), k) && k !in Moved(w, m).chans
  {
    if m.Do? {
      StepLogs(w, m.op);
      LogsOpenNothing(w.ledger, Step(w, m.op).ledger, w.chans.Keys, k);
      if k in Step(w, m.op).chans {
        StepKeepsKeys(w, m.op, k);
      }
    } else {
      EntryCounts(w.ledger, m.id, k);
    }
  }

  function NoDataFor(k: u32): Pick {
    (p: Packet) => !DataFor(k, p)
  }

  lemma {:induction false} NothingQueued(k: u32, q: Queue)
    requires AllHold(NoDataFor(k), q)
    ensures QueuedBytes(k, q) == 0
  {
    if q != [] {
      assert NoDataFor(k)(q[0]);
      NothingQueued(k, q[1..]);
    }
  }

  /** A channel that is not in the session, for which nothing is queued. */
  ghost predicate Absent(w: World, k: u32) {
    k !in w.chans && AllHold(NoDataFor(k), w.packets)
  }

  /** And of which there is no trace but the replies to requests that named it. */
  ghost predicate Blank(w: World, k: u32) {
    && Absent(w, k) && Own(w.wire, k) == Replies(k, w.heard)
    && ReceivedBytes(w.ledger, k) == KeptBytes(w.ledger, k) == GrantedBytes(w.ledger, k) == 0
  }

  /** Channels are filed under their own id, and there is no trace of an id that was never handed out. */
  ghost predicate Grounded(w: World) {
    Keyed(w) && forall k: u32 :: IsNew(w, k) ==> Blank(w, k)
  }

  lemma StepKeepsAbsent(w: World, op: Op, j: u32)
    requires Callable(w, op) && Absent(w, j)
    ensures Absent(Step(w, op), j) && Replied(w, Step(w, op), j, false)
    ensures ReceivedBytes(Step(w, op).ledger, j) == ReceivedBytes(w.ledger, j)
    ensures KeptBytes(Step(w, op).ledger, j) == KeptBytes(w.ledger, j)
    ensures GrantedBytes(Step(w, op).ledger, j) == GrantedBytes(w.ledger, j)
  {
    if j in Step(w, op).chans {
      StepKeepsKeys(w, op, j);
    }
    StepKeepsAll(NoDataFor(j), w, op);
    StepReplied(w, op, j);
    StepLogs(w, op);
    LogsCount(w.ledger, Step(w, op).ledger, w.chans.Keys, j);
  }

  lemma RepliesContinue(w: World, w': World, k: u32)
    requires Replied(w, w', k, false) && Own(w.wire, k) == Replies(k, w.heard)
    ensures Own(w'.wire, k) == Replies(k, w'.heard)
  {
    RepliesOfConcat(k, w.heard, w'.heard[|w.heard|..]);
    assert w.heard + w'.heard[|w.heard|..] == w'.heard;
  }

  lemma StepKeepsGrounded(w: World, op: Op)
    requires Callable(w, op) && Grounded(w)
    ensures Grounded(Step(w, op))
  {
    StepKeepsKeyed(w, op);
    StepLogs(w, op);
    forall k: u32 | IsNew(Step(w, op), k)
      ensures Blank(Step(w, op), k)
    {
      LogsOpenNothing(w.ledger, Step(w, op).ledger, w.chans.Keys, k);
      assert IsNew(w, k);
      StepKeepsAbsent(w, op, k);
      RepliesContinue(w, Step(w, op), k);
    }
  }

  /** An id handed out, with a channel or without. */
  lemma EntryCounts(ledger: Ledger, k: u32, j: u32)
    ensures var l := ledger + [Opened(k)];
            && ReceivedBytes(l, j) == ReceivedBytes(ledger, j) && KeptBytes(l, j) == KeptBytes(ledger, j)
            && GrantedBytes(l, j) == GrantedBytes(ledger, j)
            && (Opened(j) in l <==> Opened(j) in ledger || j == k)
  {
    LedgerExtends(ledger, Opened(k), j);
  }

  /** What an opening leaves alone of another channel. */
  lemma OpeningTraces(w: World, m: Move, j: u32)
    requires Possible(w, m) && !m.Do? && j != m.id
    ensures var w' := Moved(w, m);
            && w'.packets == w.packets && w'.heard == w.heard && Own(w'.wire, j) == Own(w.wire, j)
            && ReceivedBytes(w'.ledger, j) == ReceivedBytes(w.ledger, j)
            && KeptBytes(w'.ledger, j) == KeptBytes(w.ledger, j)
            && GrantedBytes(w'.ledger, j) == GrantedBytes(w.ledger, j)
            && (IsNew(w', j) <==> IsNew(w, j))
  {
    hide OwnChan, PeerChan, ConfirmBytes, Own, ReceivedBytes, KeptBytes, GrantedBytes;
    EntryCounts(w.ledger, m.id, j);
    if m.OpenPeer? {
      OwnOfAppend(w.wire, Outgoing(m.id, ConfirmBytes(m.sender, m.id)), j);
    }
  }

  lemma OpeningSame(w: World, m: Move, j: u32)
    requires Possible(w, m) && !m.Do? && j != m.id
    ensures var w' := Moved(w, m);
            && (j in w'.chans <==> j in w.chans) && (j in w.chans ==> ViewOf(w', j) == ViewOf(w, j))
            && (Blank(w, j) ==> Blank(w', j)) && (Absent(w, j) ==> Absent(w', j))
            && w'.heard == w.heard && Own(w'.wire, j) == Own(w.wire, j) && (IsNew(w', j) <==> IsNew(w, j))
  {
    OpeningTraces(w, m, j);
  }

  /** The share of a channel that has just been opened, when its id was demanded replies before. */
  function Fresh(m: Move, replies: seq<bytes>): View
    requires !m.Do?
  {
    match m
    case OpenOwn(id, kind, window, packetSize) => View(OwnChan(kind, id, window, packetSize), 0, 0, 0, 0, replies)
    case OpenPeer(id, sender, window, packetSize, _) =>
      View(PeerChan(id, sender, window, packetSize), 0, 0, 0, 0, replies + [ConfirmBytes(sender, id)])
  }

  /** It has sent at most those replies and the confirmation of its opening. */
  lemma FreshTrace(m: Move, k: u32, heard: seq<Message>)
    requires !m.Do?
    ensures var own := Fresh(m, Replies(k, heard)).own;
            SentData(own) == [] && SentAdjusts(own) == 0 && Requests(own) == [] && Kinds(own) == []
  {
    RepliesAreAside([], k, heard);
    assert [] + Replies(k, heard) == Replies(k, heard);
    if m.OpenPeer? {
      OwnExtends(Replies(k, heard), ConfirmBytes(m.sender, m.id));
    }
  }

  lemma OpeningFresh(w: World, m: Move)
    requires Possible(w, m) && !m.Do? && Grounded(w)
    ensures var w' := Moved(w, m);
            if m.OpenPeer? && m.answer != Accepted then Absent(w', m.id) && w'.chans == w.chans
            else m.id in w'.chans && ViewOf(w', m.id) == Fresh(m, Replies(m.id, w.heard))
  {
    NothingQueued(m.id, w.packets);
    EntryCounts(w.ledger, m.id, m.id);
    assert Blank(w, m.id);
  }

  lemma MoveKeepsGrounded(w: World, m: Move)
    requires Possible(w, m) && Grounded(w)
    ensures Grounded(Moved(w, m))
  {
    if m.Do? {
      StepKeepsGrounded(w, m.op);
    } else {
      EntryCounts(w.ledger, m.id, m.id);
      forall k: u32 | IsNew(Moved(w, m), k)
        ensures Blank(Moved(w, m), k)
      {
        OpeningSame(w, m, k);
      }
    }
  }

  /** Every id handed out so far is below `n`. */
  ghost predicate AllBelow(w: World, n: nat) {
    forall k: u32 :: !IsNew(w, k) ==> k < n
  }

  /** Ids that are handed out in ascending order, as the counter of the session does until it wraps, are
      new each time. */
  lemma AscendingIdsAreNew(w: World, m: Move, n: nat)
    requires AllBelow(w, n)
    ensures !m.Do? && m.id >= n ==> Possible(w, m)
    ensures Possible(w, m) ==> AllBelow(Moved(w, m), if !m.Do? && m.id >= n then m.id + 1 else n)
  {
    if Possible(w, m) {
      forall k: u32 | !IsNew(Moved(w, m), k)
        ensures k < if !m.Do? && m.id >= n then m.id + 1 else n
      {
        if m.Do? {
          StepLogs(w, m.op);
          LogsOpenNothing(w.ledger, Step(w, m.op).ledger, w.chans.Keys, k);
          assert !IsNew(w, k);
        } else {
          EntryCounts(w.ledger, m.id, k);
          assert k == m.id || !IsNew(w, k);
        }
      }
    }
  }

  lemma {:induction false} RunKeepsGrounded(w: World, moves: seq<Move>)
    requires Legal(w, moves) && Grounded(w)
    ensures Grounded(Run(w, moves))
    decreases |moves|
  {
    if moves != [] {
      MoveKeepsGrounded(w, moves[0]);
      RunKeepsGrounded(Moved(w, moves[0]), moves[1..]);
    }
  }

  /** From the start: in every run, what is queued is queued for a channel that was opened, the list of channels and
      the ledger mention no id that was not handed out, and what was sent with such an id is exactly one reply
      to each request that named it and wants one. */
  lemma NothingOutOfNothing(moves: seq<Move>, k: u32)
    requires Legal(NoChannels(), moves) && IsNew(Run(NoChannels(), moves), k)
    ensures var w := Run(NoChannels(), moves);
            && Absent(w, k) && ReceivedBytes(w.ledger, k) == KeptBytes(w.ledger, k) == GrantedBytes(w.ledger, k) == 0
            && Own(w.wire, k) == Replies(k, w.heard)
            && (Own(w.wire, k) == [] <==> forall i :: 0 <= i < |w.heard| ==> !Demands(k, w.heard[i]))
  {
    RunKeepsGrounded(NoChannels(), moves);
    NoRepliesIff(k, Run(NoChannels(), moves).heard);
  }
}
