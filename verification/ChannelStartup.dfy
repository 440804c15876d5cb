/**
 Starting a process on a channel: one request over the whole life of the channel, well formed and,
 if every attempt asks for the same, exactly the one asked for.
 */
module ChannelStartup {
  import opened Bytes
  import opened PacketQueue
  import opened ChannelSpec
  import opened ChannelTraces
  import opened ChannelSteps
  import opened ChannelRuns
  import opened ChannelTerms

  // ---- The request itself ----

  /** A process request as section 6.5 of RFC 4254 lays it out. */
  datatype ProcessRequest = ProcessRequest(recipient: u32, request: bytes, wantReply: bool, argument: Option<bytes>)

  /** Decodes a whole message; nothing may follow the last field. */
  function DecodeRequest(m: bytes): Option<ProcessRequest> {
    if |m| < 5 || m[0] != MSG_CHANNEL_REQUEST then None
    else
      match TakeString(m[5..])
      case None => None
      case Some((request, rest)) =>
        if rest == [] then None
        else if rest[1..] == [] then Some(ProcessRequest(NtohU32(m[1..]), request, rest[0] != 0, None))
        else
          match TakeString(rest[1..])
          case None => None
          case Some((argument, end)) =>
            if end != [] then None
            else Some(ProcessRequest(NtohU32(m[1..]), request, rest[0] != 0, Some(argument)))
  }

  /** Everything up to the flag that asks for a reply. */
  lemma RequestHead(recipient: u32, request: Text, tail: bytes)
    ensures var m := [MSG_CHANNEL_REQUEST] + (StoreU32(recipient) + (StoreU32(|request|) + (request + tail)));
            NtohU32(m[1..]) == recipient && TakeString(m[5..]) == Some((request, tail))
  {
    var rest := StoreU32(|request|) + (request + tail);
    LoadAt([MSG_CHANNEL_REQUEST], recipient, rest);
    assert [MSG_CHANNEL_REQUEST] + (StoreU32(recipient) + rest) == [MSG_CHANNEL_REQUEST] + StoreU32(recipient) + rest;
    assert ([MSG_CHANNEL_REQUEST] + (StoreU32(recipient) + rest))[5..] == rest;
    TakeStringOfStored(request, tail);
    Regroup(StoreU32(|request|), request, tail);
  }

  /** What follows the request name. */
  lemma RequestTail(recipient: u32, request: Text, message: Option<Text>)
    ensures RequestBytes(recipient, request, message) + MessageOf(message) ==
            var tail := [1] + if message.Some? then StringBytes(message.value) else [];
            [MSG_CHANNEL_REQUEST] + (StoreU32(recipient) + (StoreU32(|request|) + (request + tail)))
  {
    var length := if message.Some? then StoreU32(|message.value|) else [];
    assert length + MessageOf(message) == if message.Some? then StringBytes(message.value) else [];
  }

  lemma DecodesTo(m: bytes, recipient: u32, request: bytes, tail: bytes, argument: Option<Text>)
    requires |m| >= 5 && m[0] == MSG_CHANNEL_REQUEST && NtohU32(m[1..]) == recipient
    requires TakeString(m[5..]) == Some((request, [1] + tail))
    requires if argument.Some? then TakeString(tail) == Some((argument.value, [])) else tail == []
    ensures DecodeRequest(m) == Some(ProcessRequest(recipient, request, true, argument))
  {
    assert ([1] + tail)[1..] == tail;
  }

  /** The request fills the length computed for it, and decodes to the fields it was built from. */
  lemma RequestDecodes(recipient: u32, request: Text, message: Option<Text>)
    ensures |RequestBytes(recipient, request, message)| == |request| + 10 + if message.Some? then 4 else 0
    ensures DecodeRequest(RequestBytes(recipient, request, message) + MessageOf(message)) ==
            Some(ProcessRequest(recipient, request, true, message))
  {
    var tail := if message.Some? then StringBytes(message.value) else [];
    RequestTail(recipient, request, message);
    RequestHead(recipient, request, [1] + tail);
    if message.Some? {
      TakeStringOfStored(message.value, []);
      assert tail + [] == tail;
    }
    DecodesTo(RequestBytes(recipient, request, message) + MessageOf(message), recipient, request, tail, message);
  }

  // ---- One step ----

  datatype Asked = Asked(request: Text, message: Option<bytes>)

  function Packet(recipient: u32, a: Asked): bytes {
    RequestBytes(recipient, a.request, a.message)
  }

  function Rank(s: State): nat {
    match s
    case Idle => 0
    case Created => 1
    case Sent => 2
    case _ => 3
  }

  /** The state of the startup agrees with the requests sent; if every attempt asks for the same, the
      request parked or sent is that one. */
  predicate Once(v: View, asked: Option<Asked>) {
    var sent := Requests(v.own);
    && Shaped(v.c)
    && (match v.c.process.state
        case Idle => sent == []
        case Created => sent == [] && (asked.Some? ==> v.c.process.packet == Packet(v.c.remote.id, asked.value))
        case Sent => |sent| == 1
        case End => |sent| <= 1
        case Jump1 => false)
    && (v.c.opening.state != Idle ==> v.c.process.state == Idle)
    && (asked.Some? && |sent| == 1 ==> sent[0] == Packet(v.c.remote.id, asked.value) + MessageOf(asked.value.message))
  }

  /** What every call but a startup and an opening leaves alone. */
  ghost predicate SameStart(v: View, v': View) {
    && Shaped(v'.c) && v'.c.process == v.c.process && v'.c.remote.id == v.c.remote.id && v'.c.opening == v.c.opening
    && Requests(v'.own) == Requests(v.own)
  }

  lemma DeliverSame(k: u32, v: View, arrivals: seq<Message>)
    requires Shaped(v.c)
    ensures SameStart(v, Deliver(k, v, arrivals))
  {
    DeliverFrame(k, v, arrivals);
    DeliverAside(k, v, arrivals);
  }

  lemma OtherCallsSame(v: View, op: Op, h: Hint)
    requires op.call.Write? && v.c.write.state == Created ==> v.c.write.len <= |op.call.buf|
    requires op.call.Receive? || v.c.opening.state == Idle
    requires h.n <= |op.env.arrivals| && HoldsTo(v) && !op.call.Start? && !op.call.Open?
    ensures SameStart(v, OwnStep(v, op, h))
  {
    hide OwnStep, Requests, Spoken, FitTo, Announced, HoldsTo;
    HoldsToIsShaped(v);
    if op.call.Receive? {
      ReceiveIsDeliver(v, op, h);
      DeliverSame(op.k, v, op.env.arrivals);
    } else {
      OpenIsParkedFor(v);
      CallIsPlain(v, op, h);
      OwnCallHoldsTo(v, op, h);
      HoldsToIsShaped(OwnStep(v, op, h));
    }
  }

  lemma OpenIsParkedFor(v: View)
    requires HoldsTo(v) && v.c.opening.state == Idle
    ensures ParkedFor(v.c)
  {
  }

  lemma SendStartOnce(v: View, a: Asked, asked: Option<Asked>, ans: SendAnswer)
    requires Once(v, asked) && (asked.Some? ==> a == asked.value) && v.c.process.state != End && v.c.opening.state == Idle
    ensures var v1 := Effect(v, SendStart(v.c, a.request, a.message, ans));
            Once(v1, asked) && Rank(v.c.process.state) <= Rank(v1.c.process.state)
  {
    var b := SendStart(v.c, a.request, a.message, ans);
    if b.sent.Some? {
      OwnExtends(v.own, b.sent.value);
    }
  }

  lemma AwaitStartOnce(v: View, asked: Option<Asked>, reply: Reply)
    requires Once(v, asked)
    ensures var v1 := Effect(v, AwaitStart(v.c, reply));
            Once(v1, asked) && Rank(v.c.process.state) <= Rank(v1.c.process.state)
  {
  }

  lemma StartOnce(k: u32, v: View, a: Asked, asked: Option<Asked>, env: Env)
    requires Once(v, asked) && (asked.Some? ==> a == asked.value) && v.c.opening.state == Idle
    ensures var v' := StartView(k, v, a.request, a.message, env);
            Once(v', asked) && Rank(v.c.process.state) <= Rank(v'.c.process.state)
  {
    if v.c.process.state != End {
      var v1 := Effect(v, SendStart(v.c, a.request, a.message, env.send));
      SendStartOnce(v, a, asked, env.send);
      AwaitStartOnce(v1, asked, env.reply);
      var v2 := Deliver(k, v1, env.arrivals);
      DeliverSame(k, v1, env.arrivals);
      SameStartOnce(v1, v2, asked);
      AwaitStartOnce(v2, asked, env.reply);
    }
  }

  lemma OpenActOnce(v: View, a: Act, asked: Option<Asked>)
    requires Once(v, asked) && v.c.opening.state != Idle && Shaped(a.c) && a.c.process == v.c.process
    requires a.sent.Some? ==> !IsRequest(a.sent.value)
    ensures Once(Effect(v, a), asked)
  {
  }

  lemma SendOpenOnce(v: View, extra: bytes, ans: SendAnswer, asked: Option<Asked>)
    requires Once(v, asked) && v.c.opening.state != Idle
    ensures Once(Effect(v, SendOpen(v.c, extra, ans)), asked)
    ensures var c := SendOpen(v.c, extra, ans).c; c.opening.state != Idle && c.process == v.c.process
  {
    OpenActOnce(v, SendOpen(v.c, extra, ans), asked);
  }

  lemma OpenOnce(k: u32, v: View, extra: bytes, asked: Option<Asked>, env: Env)
    requires Once(v, asked) && v.c.opening.state != Idle
    ensures Once(OpenView(k, v, extra, env), asked) && OpenView(k, v, extra, env).c.process == v.c.process
  {
    var v1 := Effect(v, SendOpen(v.c, extra, env.send));
    SendOpenOnce(v, extra, env.send, asked);
    DeliverSame(k, v1, env.arrivals);
    var v2 := Deliver(k, v1, env.arrivals);
    SameStartOnce(v1, v2, asked);
    OpenActOnce(v2, AwaitOpen(v2.c, env.openReply), asked);
  }

  /** A startup reports success if and only if its request is accepted, now or by an earlier call, and the peer answers
      that it succeeded; and then exactly one request was sent. It is over unless it would block, and one that is over is
      refused. */
  lemma StartupSucceedsIff(w: World, op: Op)
    requires Callable(w, op) && op.call.Start? && HoldsTo(ViewOf(w, op.k)) && Once(ViewOf(w, op.k), None)
    ensures var c, o := w.chans[op.k], StartCall(w, op.k, op.call.request, op.call.message, op.env);
            && op.k in o.w.chans
            && (o.rc == 0 <==>
                  && (c.process.state == Sent || (c.process.state in {Idle, Created} && op.env.send == Accepted))
                  && op.env.reply == Code(MSG_CHANNEL_SUCCESS))
            && (o.rc == 0 ==> |Requests(Own(o.w.wire, op.k))| == 1)
            && (o.rc == ERROR_EAGAIN <==> o.w.chans[op.k].process.state != End)
            && (c.process.state == End ==> o == Outcome(w, ERROR_BAD_USE))
  {
    hide HoldsTo, Drain, Requests, SendStart, StartReply, Own;
    var v, c, env := ViewOf(w, op.k), w.chans[op.k], op.env;
    var a := SendStart(c, op.call.request, op.call.message, env.send);
    var w1 := Apply(w, op.k, a);
    HoldsToIsShaped(v);
    if c.process.state != End {
      SendStartMeans(v, op.call.request, op.call.message, env.send);
      ApplyEffect(w, op.k, a);
      assert ViewOf(w1, op.k).c == w1.chans[op.k] && ViewOf(w1, op.k).own == Own(w1.wire, op.k);
      if a.rc == 0 {
        StartReplyMeans(w1, op.k, env);
      }
    }
  }

  /** The request half lets the startup go on if and only if the request is accepted, now or before. */
  lemma SendStartMeans(v: View, request: Text, message: Option<bytes>, ans: SendAnswer)
    requires Shaped(v.c) && Once(v, None) && v.c.process.state != End
    ensures var a := SendStart(v.c, request, message, ans);
            && (a.rc == 0 <==> v.c.process.state == Sent || ans == Accepted)
            && (a.rc == 0 ==> a.c.process.state == Sent && |Requests(Effect(v, a).own)| == 1)
            && (a.rc == ERROR_EAGAIN ==> a.c.process.state == Created) && (a.rc !in {0, ERROR_EAGAIN} ==> a.c.process.state == End)
  {
    hide Spoken, SentData, SentAdjusts, Kinds, Answers;
    var a := SendStart(v.c, request, message, ans);
    if a.sent.Some? {
      OwnExtends(v.own, a.sent.value);
    }
  }

  lemma StartReplyMeans(w: World, k: u32, env: Env)
    requires k in w.chans && w.chans[k].process.state == Sent
    ensures var o := StartReply(w, k, env);
            && k in o.w.chans && (o.rc == 0 <==> env.reply == Code(MSG_CHANNEL_SUCCESS))
            && (o.rc == ERROR_EAGAIN <==> o.w.chans[k].process.state != End)
            && Requests(Own(o.w.wire, k)) == Requests(Own(w.wire, k))
  {
    hide Drain, Requests, Own;
    DrainSame(w, env.arrivals, k);
  }

  lemma DrainSame(w: World, arrivals: seq<Message>, k: u32)
    requires k in w.chans
    ensures var w1 := Drain(w, arrivals);
            w1.chans[k].process == w.chans[k].process && Requests(Own(w1.wire, k)) == Requests(Own(w.wire, k))
  {
    hide Drain, Deliver;
    DrainDelivers(w, arrivals, k);
    DeliverFrame(k, ViewOf(w, k), arrivals);
    DeliverAside(k, ViewOf(w, k), arrivals);
    assert ViewOf(Drain(w, arrivals), k).c == Drain(w, arrivals).chans[k];
    assert ViewOf(Drain(w, arrivals), k).own == Own(Drain(w, arrivals).wire, k);
  }

  // ---- Runs ----

  /** Every startup on channel `k` asks for the same. */
  predicate Asks(m: Move, k: u32, asked: Option<Asked>) {
    asked.Some? && m.Do? && m.op.k == k && m.op.call.Start? ==> Asked(m.op.call.request, m.op.call.message) == asked.value
  }

  lemma SameStartOnce(v: View, v': View, asked: Option<Asked>)
    requires Once(v, asked) && SameStart(v, v')
    ensures Once(v', asked) && v'.c.process == v.c.process
  {
  }

  lemma StepOnce(w: World, op: Op, k: u32, asked: Option<Asked>)
    requires Callable(w, op) && Keyed(w) && k in Step(w, op).chans && k in w.chans && HoldsTo(ViewOf(w, k))
    requires Once(ViewOf(w, k), asked) && Asks(Do(op), k, asked)
    ensures Once(ViewOf(Step(w, op), k), asked)
    ensures Rank(w.chans[k].process.state) <= Rank(Step(w, op).chans[k].process.state)
  {
    hide HoldsTo, OwnStep, Step, StartView, OpenView, Requests;
    var v, v' := ViewOf(w, k), ViewOf(Step(w, op), k);
    if k != op.k {
      var n := CallsDoNotInterfere(w, op, k);
      DeliverSame(k, v, op.env.arrivals[..n]);
      SameStartOnce(v, v', asked);
    } else {
      var h := CallsAreLocal(w, op);
      if op.call.Start? {
        StartIsView(v, op, h);
        StartOnce(k, v, Asked(op.call.request, op.call.message), asked, op.env);
      } else if op.call.Open? {
        OpenIsView(v, op, h);
        OpenOnce(k, v, op.call.extra, asked, op.env);
      } else {
        OtherCallsSame(v, op, h);
        SameStartOnce(v, v', asked);
      }
    }
  }

  /** The requests that a channel has sent to this recipient are at most one, and the one asked for. */
  predicate AtMostOne(own: seq<bytes>, recipient: u32, asked: Option<Asked>) {
    var sent := Requests(own);
    |sent| <= 1 && (asked.Some? && |sent| == 1 ==> sent[0] == Packet(recipient, asked.value) + MessageOf(asked.value.message))
  }

  /** The peer's id of channel `k`, or what it was last known to be. */
  function PeerOf(w: World, k: u32, last: Option<u32>): Option<u32> {
    if k in w.chans then Some(w.chans[k].remote.id) else last
  }

  /** The peer's id of channel `k` when the channel was last in the session, if it was `last` before the run. */
  function LastPeer(w: World, moves: seq<Move>, k: u32, last: Option<u32>): Option<u32>
    requires Legal(w, moves)
    decreases |moves|
  {
    if moves == [] then last
    else
      var w1 := Moved(w, moves[0]);
      LastPeer(w1, moves[1..], k, PeerOf(w1, k, last))
  }

  /** What a run keeps for channel `k`, whether it is in the session or not. */
  ghost predicate KeepsOnce(w: World, k: u32, asked: Option<Asked>, peer: Option<u32>) {
    && Grounded(w)
    && (if k in w.chans then HoldsTo(ViewOf(w, k)) && Once(ViewOf(w, k), asked) && peer == Some(w.chans[k].remote.id)
        else if peer.Some? then AtMostOne(Own(w.wire, k), peer.value, asked)
        else Requests(Own(w.wire, k)) == [])
  }

  /** What a call that takes its channel out of the session leaves of it. */
  lemma LeavingOnce(w: World, op: Op, asked: Option<Asked>)
    requires Callable(w, op) && Keyed(w) && op.k !in Step(w, op).chans && HoldsTo(ViewOf(w, op.k))
    requires Once(ViewOf(w, op.k), asked)
    ensures AtMostOne(Own(Step(w, op).wire, op.k), w.chans[op.k].remote.id, asked)
  {
    hide FreeCall, OpenOn, HoldsTo;
    var v := ViewOf(w, op.k);
    var h := CallsAreLocal(w, op);
    if op.call.Open? {
      OpenOnce(op.k, v, op.call.extra, asked, op.env);
    } else {
      assert op.call.Free? by {
        if !op.call.Free? {
          StaysUnlessFreed(w, op);
        }
      }
      OtherCallsSame(v, op, h);
      SameStartOnce(v, OwnStep(v, op, h), asked);
    }
  }

  /** Only a free and a failed opening take a channel out of the session. */
  lemma StaysUnlessFreed(w: World, op: Op)
    requires Callable(w, op) && !op.call.Free? && !op.call.Open?
    ensures op.k in Step(w, op).chans
  {
  }

  lemma FreshOnce(m: Move, heard: seq<Message>, asked: Option<Asked>)
    requires !m.Do?
    ensures Once(Fresh(m, Replies(m.id, heard)), asked)
  {
    FreshTrace(m, m.id, heard);
  }

  lemma StepKeepsOnce(w: World, op: Op, k: u32, asked: Option<Asked>, peer: Option<u32>)
    requires Callable(w, op) && KeepsOnce(w, k, asked, peer) && Asks(Do(op), k, asked)
    ensures KeepsOnce(Step(w, op), k, asked, PeerOf(Step(w, op), k, peer))
  {
    hide Once, Step, HoldsTo;
    var w' := Step(w, op);
    StepKeepsGrounded(w, op);
    if k in w'.chans {
      StepKeepsKeys(w, op, k);
      StepHoldsTo(w, op, k);
      StepOnce(w, op, k, asked);
    } else if k == op.k {
      LeavingOnce(w, op, asked);
    } else {
      AwayOnce(w, op, k);
    }
  }

  lemma AwayOnce(w: World, op: Op, k: u32)
    requires Callable(w, op) && k != op.k && k !in Step(w, op).chans
    ensures k !in w.chans && Requests(Own(Step(w, op).wire, k)) == Requests(Own(w.wire, k))
  {
    if k in w.chans {
      OthersStay(w, op, k);
    }
    StepReplied(w, op, k);
    RepliesAreAside(Own(w.wire, k), k, Step(w, op).heard[|w.heard|..]);
  }

  lemma OpeningKeepsOnce(w: World, m: Move, k: u32, asked: Option<Asked>, peer: Option<u32>)
    requires Possible(w, m) && !m.Do? && KeepsOnce(w, k, asked, peer)
    ensures KeepsOnce(Moved(w, m), k, asked, PeerOf(Moved(w, m), k, peer))
  {
    MoveKeepsGrounded(w, m);
    if k != m.id {
      OpeningSame(w, m, k);
    } else {
      OpeningFresh(w, m);
      FreshOnce(m, w.heard, asked);
      FreshKeepsTerms(m, w.heard);
      assert Blank(w, k);
    }
  }

  lemma {:induction false} RunKeepsOnce(w: World, moves: seq<Move>, k: u32, asked: Option<Asked>, peer: Option<u32>)
    requires Legal(w, moves) && KeepsOnce(w, k, asked, peer) && forall i :: 0 <= i < |moves| ==> Asks(moves[i], k, asked)
    ensures KeepsOnce(Run(w, moves), k, asked, LastPeer(w, moves, k, peer))
    decreases |moves|
  {
    if moves != [] {
      var w1 := Moved(w, moves[0]);
      if moves[0].Do? {
        StepKeepsOnce(w, moves[0].op, k, asked, peer);
      } else {
        OpeningKeepsOnce(w, moves[0], k, asked, peer);
      }
      RunKeepsOnce(w1, moves[1..], k, asked, PeerOf(w1, k, peer));
    }
  }

  /** One process request per channel. Over every run from a session without channels, at most one request is
      accepted by the transport for a channel, whether it is still in the session or not; and if every attempt
      asks for the same, under whatever schedule of refusals, the one accepted is what was asked for. */
  lemma OneRequest(moves: seq<Move>, k: u32, asked: Option<Asked>)
    requires Legal(NoChannels(), moves) && forall i :: 0 <= i < |moves| ==> Asks(moves[i], k, asked)
    ensures var own := Own(Run(NoChannels(), moves).wire, k);
            match LastPeer(NoChannels(), moves, k, None)
            case Some(recipient) => AtMostOne(own, recipient, asked)
            case None => Requests(own) == []
  {
    RunKeepsOnce(NoChannels(), moves, k, asked, None);
  }

  lemma {:induction false} ClimbsOn(w: World, moves: seq<Move>, k: u32)
    requires Legal(w, moves) && KeepsOnce(w, k, None, PeerOf(w, k, None)) && k in w.chans && k in Run(w, moves).chans
    ensures Rank(w.chans[k].process.state) <= Rank(Run(w, moves).chans[k].process.state)
    decreases |moves|
  {
    if moves != [] {
      var m := moves[0];
      assert !IsNew(w, k);
      if k !in Moved(w, m).chans {
        StepLogs(w, m.op);
        LogsOpenNothing(w.ledger, Step(w, m.op).ledger, w.chans.Keys, k);
        GoneStaysGone(Moved(w, m), moves[1..], k);
        assert false;
      }
      if m.Do? {
        StepOnce(w, m.op, k, None);
        StepKeepsOnce(w, m.op, k, None, PeerOf(w, k, None));
      } else {
        OpeningSame(w, m, k);
        OpeningKeepsOnce(w, m, k, None, PeerOf(w, k, None));
      }
      ClimbsOn(Moved(w, m), moves[1..], k);
    }
  }

  /** The state of a startup only climbs, idle, created, sent, end, between any two points of a run. */
  lemma StartupClimbs(before: seq<Move>, after: seq<Move>, k: u32)
    requires Legal(NoChannels(), before) && k in Run(NoChannels(), before).chans
    requires var w := Run(NoChannels(), before); Legal(w, after) && k in Run(w, after).chans
    ensures var w := Run(NoChannels(), before);
            Rank(w.chans[k].process.state) <= Rank(Run(w, after).chans[k].process.state)
  {
    RunKeepsOnce(NoChannels(), before, k, None, None);
    ClimbsOn(Run(NoChannels(), before), after, k);
  }
}
