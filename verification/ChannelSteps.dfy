/**
 One call: what it does to its own channel, what it leaves alone of the others, and what it keeps of
 the shared queue.
 */
module ChannelSteps {
  import opened Bytes
  import opened PacketQueue
  import opened ChannelSpec
  import opened ChannelTraces

  datatype Call =
    | Write(stream: i32, buf: bytes)
    | Read(from: i32, buflen: nat)
    | AdjustWindow(adjustment: u32, force: bool)
    | FlushStream(which: i32)
    | Merging(on: bool)
    | EndOfData
    | Shut
    | Free
    | Start(request: Text, message: Option<bytes>)
    | Open(extra: bytes)
    | Receive

  /** A call on channel `k`; `Open` goes on with the opening of a channel that is listed already, and
      `Receive` stands for every call that only drains the transport. */
  datatype Op = Op(k: u32, call: Call, env: Env)

  /** Nobody has a handle on a channel before it is open, and a write resumed after EAGAIN is given the
      arguments of the call it resumes. */
  predicate Callable(w: World, op: Op) {
    && op.k in w.chans
    && (op.call.Receive? || (op.call.Open? <==> w.chans[op.k].opening.state != Idle))
    && (op.call.Write? && w.chans[op.k].write.state == Created ==> w.chans[op.k].write.len <= |op.call.buf|)
  }

  function Step(w: World, op: Op): World
    requires Callable(w, op)
  {
    match op.call
    case Write(stream, buf) => WriteCall(w, op.k, stream, buf, op.env).w
    case Read(from, buflen) => ReadCall(w, op.k, from, buflen, op.env).w
    case AdjustWindow(adjustment, force) => AdjustCall(w, op.k, adjustment, force, op.env).w
    case FlushStream(which) => FlushCall(w, op.k, which, op.env).w
    case Merging(on) => Apply(w, op.k, SetMerge(w.chans[op.k], on))
    case EndOfData => EofCall(w, op.k, op.env).w
    case Shut => CloseCall(w, op.k, op.env).w
    case Free => FreeCall(w, op.k, op.env).w
    case Start(request, message) => StartCall(w, op.k, request, message, op.env).w
    case Open(extra) => OpenOn(w, op.k, extra, op.env).w
    case Receive => Drain(w, op.env.arrivals)
  }

  // ---- What a call does to its own channel ----

  /** What an operation cannot know in advance: how many messages a wait receives, whether it ends
      without blocking, how many octets a read finds, and what a flush finds. */
  datatype Hint = Hint(n: nat, done: bool, taken: nat, flushed: Flushed)

  function Effect(v: View, a: Act): View {
    v.(c := a.c, own := if a.sent.Some? then v.own + [a.sent.value] else v.own)
  }

  function WriteView(k: u32, v: View, stream: i32, buf: bytes, env: Env): View
    requires v.c.write.state == Created ==> v.c.write.len <= |buf|
  {
    if v.c.write.state == Created then Effect(v, SendParked(v.c, buf, env.send))
    else if v.c.write.state != Idle || v.c.local.close || v.c.local.eof then v
    else
      var v1 := Deliver(k, v, env.arrivals);
      if Broken(env.readEnd) || v1.c.local.window == 0 then v1
      else Effect(v1, SendParked(Park(v1.c, stream, |buf|), buf, env.send))
  }

  function ReadView(k: u32, v: View, a: Act, env: Env, taken: nat): View {
    var v1 := Effect(v, a);
    if a.rc != 0 then v1
    else
      var v2 := Deliver(k, v1, env.arrivals);
      if Broken(env.readEnd) || taken == 0 || taken > v2.queued then v2
      else v2.(c := Consume(v2.c, taken), queued := v2.queued - taken)
  }

  function FlushView(v: View, f: Flushed, env: Env): View {
    var left := if v.c.flush.state != Idle then v.queued else if f.discarded <= v.queued then v.queued - f.discarded else 0;
    Effect(v.(queued := left), FlushAct(v.c, f, env.send))
  }

  function CloseView(k: u32, v: View, e: Act, env: Env, n: nat, done: bool): View
    requires n <= |env.arrivals|
  {
    var v1 := Effect(v, e);
    if e.rc == ERROR_EAGAIN then v1
    else
      var a := SendClose(e.c, e.rc, env.send);
      var v2 := Effect(v1, a);
      var waits := a.c.close.state == Sent && a.rc == 0 && env.connected;
      var v3 := if waits then Deliver(k, v2, env.arrivals[..n]) else v2;
      if (if waits then done else a.rc != ERROR_EAGAIN) then v3.(c := MarkClosed(v3.c)) else v3
  }

  function ShutView(k: u32, v: View, env: Env, n: nat, done: bool): View
    requires n <= |env.arrivals|
  {
    if v.c.local.close then v.(c := v.c.(close := v.c.close.(state := Idle)))
    else CloseView(k, v, EofBeforeClose(v.c, env.eofSend), env, n, done)
  }

  function StartView(k: u32, v: View, request: Text, message: Option<bytes>, env: Env): View {
    if v.c.process.state == End then v
    else
      var a := SendStart(v.c, request, message, env.send);
      var v1 := Effect(v, a);
      if a.rc != 0 then v1
      else
        var v2 := if a.c.process.state == Sent then Deliver(k, v1, env.arrivals) else v1;
        Effect(v2, AwaitStart(v2.c, env.reply))
  }

  function OpenView(k: u32, v: View, extra: bytes, env: Env): View {
    var a := SendOpen(v.c, extra, env.send);
    var v1 := Effect(v, a);
    if a.rc != 0 then v1
    else
      var v2 := Deliver(k, v1, env.arrivals);
      Effect(v2, AwaitOpen(v2.c, env.openReply))
  }

  /** A call on channel `k`, from the point of view of channel `k`. */
  function OwnStep(v: View, op: Op, h: Hint): View
    requires op.call.Write? && v.c.write.state == Created ==> v.c.write.len <= |op.call.buf|
    requires h.n <= |op.env.arrivals|
  {
    match op.call
    case Write(stream, buf) => WriteView(op.k, v, stream, buf, op.env)
    case Read(_, buflen) => ReadView(op.k, v, ReadPrepare(v.c, buflen, op.env.send), op.env, h.taken)
    case AdjustWindow(adjustment, force) => Effect(v, Adjust(v.c, adjustment, force, op.env.send))
    case FlushStream(_) => FlushView(v, h.flushed, op.env)
    case Merging(on) => Effect(v, SetMerge(v.c, on))
    case EndOfData => Effect(v, SendEof(v.c, op.env.eofSend))
    case Shut => ShutView(op.k, v, op.env, h.n, h.done)
    case Free => if v.c.local.close || !op.env.connected then v else ShutView(op.k, v, op.env, h.n, h.done)
    case Start(request, message) => StartView(op.k, v, request, message, op.env)
    case Open(extra) => OpenView(op.k, v, extra, op.env)
    case Receive => Deliver(op.k, v, op.env.arrivals)
  }

  lemma ApplyEffect(w: World, k: u32, a: Act)
    requires k in w.chans
    ensures ViewOf(Apply(w, k, a), k) == Effect(ViewOf(w, k), a)
  {
  }

  lemma ReadTakeView(w: World, k: u32, stream: i32, buflen: nat, readEnd: ReadEnd) returns (taken: nat)
    requires k in w.chans && w.chans[k].local.id == k
    ensures taken <= QueuedBytes(k, w.packets)
    ensures var v := ViewOf(w, k);
            ViewOf(ReadTake(w, k, stream, buflen, readEnd).w, k) ==
            if taken == 0 then v else v.(c := Consume(v.c, taken), queued := v.queued - taken)
  {
    var r := Reader(k, stream, w.chans[k].merge);
    ReadCountsQueued(r, w.packets, buflen, k);
    taken := |Taken(By(r), w.packets, buflen)|;
  }

  lemma ReadOwn(w: World, k: u32, a: Act, stream: i32, buflen: nat, env: Env) returns (taken: nat)
    requires k in w.chans && a.c.local.id == k
    ensures ViewOf(ReadAfter(w, k, a, stream, buflen, env).w, k) == ReadView(k, ViewOf(w, k), a, env, taken)
  {
    var w1 := Apply(w, k, a);
    ApplyEffect(w, k, a);
    taken := 0;
    if a.rc == 0 {
      DrainDelivers(w1, env.arrivals, k);
      if !Broken(env.readEnd) {
        DeliverKeepsId(k, ViewOf(w1, k), env.arrivals);
        taken := ReadTakeView(Drain(w1, env.arrivals), k, stream, buflen, env.readEnd);
      }
    }
  }

  lemma FlushOwn(w: World, op: Op)
    requires Callable(w, op) && op.call.FlushStream? && w.chans[op.k].local.id == op.k
    ensures var f := Flush(op.k, op.call.which, w.packets);
            && f.discarded <= QueuedBytes(op.k, w.packets)
            && ViewOf(Step(w, op), op.k) == FlushView(ViewOf(w, op.k), f, op.env)
  {
    var k, c := op.k, w.chans[op.k];
    var f := Flush(k, op.call.which, w.packets);
    FlushCountsBytes(k, op.call.which, w.packets, k);
    var w1 := if c.flush.state == Idle then w.(packets := f.left) else w;
    ApplyEffect(w1, k, FlushAct(c, f, op.env.send));
  }

  lemma WriteOwn(w: World, op: Op)
    requires Callable(w, op) && op.call.Write?
    ensures ViewOf(Step(w, op), op.k) == WriteView(op.k, ViewOf(w, op.k), op.call.stream, op.call.buf, op.env)
  {
    var k, buf, c := op.k, op.call.buf, w.chans[op.k];
    if c.write.state == Created {
      ApplyEffect(w, k, SendParked(c, buf, op.env.send));
    } else if c.write.state == Idle && !c.local.close && !c.local.eof {
      DrainDelivers(w, op.env.arrivals, k);
      var w1 := Drain(w, op.env.arrivals);
      ApplyEffect(w1, k, SendParked(Park(w1.chans[k], op.call.stream, |buf|), buf, op.env.send));
    }
  }

  lemma CloseOwn(w: World, k: u32, e: Act, env: Env) returns (n: nat, done: bool)
    requires k in w.chans
    ensures n <= |env.arrivals|
    ensures ViewOf(CloseAfter(w, k, e, env).w, k) == CloseView(k, ViewOf(w, k), e, env, n, done)
  {
    n, done := 0, false;
    ApplyEffect(w, k, e);
    if e.rc != ERROR_EAGAIN {
      var w1 := Apply(w, k, e);
      var a := SendClose(e.c, e.rc, env.send);
      ApplyEffect(w1, k, a);
      if a.c.close.state == Sent && a.rc == 0 && env.connected {
        n := AwaitDelivers(Apply(w1, k, a), k, env.arrivals, env.readEnd, k);
        done := AwaitClose(Apply(w1, k, a), k, env.arrivals, env.readEnd).rc != ERROR_EAGAIN;
      }
    }
  }

  lemma ShutOwn(w: World, k: u32, env: Env) returns (n: nat, done: bool)
    requires k in w.chans
    ensures n <= |env.arrivals|
    ensures ViewOf(CloseCall(w, k, env).w, k) == ShutView(k, ViewOf(w, k), env, n, done)
  {
    n, done := 0, false;
    if !w.chans[k].local.close {
      n, done := CloseOwn(w, k, EofBeforeClose(w.chans[k], env.eofSend), env);
    }
  }

  lemma StartOwn(w: World, op: Op)
    requires Callable(w, op) && op.call.Start?
    ensures ViewOf(Step(w, op), op.k) == StartView(op.k, ViewOf(w, op.k), op.call.request, op.call.message, op.env)
  {
    var a := SendStart(w.chans[op.k], op.call.request, op.call.message, op.env.send);
    var w1 := Apply(w, op.k, a);
    ApplyEffect(w, op.k, a);
    DrainDelivers(w1, op.env.arrivals, op.k);
    var w2 := if a.c.process.state == Sent then Drain(w1, op.env.arrivals) else w1;
    ApplyEffect(w2, op.k, AwaitStart(w2.chans[op.k], op.env.reply));
  }

  lemma OpenOwn(w: World, k: u32, extra: bytes, env: Env)
    requires k in w.chans
    ensures ViewOf(OpenTry(w, k, extra, env).w, k) == OpenView(k, ViewOf(w, k), extra, env)
  {
    var a := SendOpen(w.chans[k], extra, env.send);
    ApplyEffect(w, k, a);
    if a.rc == 0 {
      var w2 := Drain(Apply(w, k, a), env.arrivals);
      DrainDelivers(Apply(w, k, a), env.arrivals, k);
      ApplyEffect(w2, k, AwaitOpen(w2.chans[k], env.openReply));
    }
  }

  /** The session as a call leaves it but for taking its channel away, which a free and a failed opening do. */
  function Worked(w: World, op: Op): (w': World)
    requires Callable(w, op)
    ensures w'.chans.Keys == w.chans.Keys
  {
    match op.call
    case Free => BeforeFree(w, op.k, op.env).w
    case Open(extra) => OpenTry(w, op.k, extra, op.env).w
    case _ => Step(w, op)
  }

  lemma StepOfWorked(w: World, op: Op)
    requires Callable(w, op)
    ensures Step(w, op) == if op.k in Step(w, op).chans then Worked(w, op) else Remove(Worked(w, op), op.k)
  {
    hide WriteCall, ReadCall, FlushCall, CloseCall, StartCall, OpenTry;
  }

  /** A hint for the calls that need none. */
  function NoHint(): Hint {
    Hint(0, false, 0, Flushed([], 0, 0, false))
  }

  lemma SendingIsLocal(w: World, op: Op)
    requires Callable(w, op)
    requires op.call.Write? || op.call.Merging? || op.call.EndOfData? || op.call.Start? || op.call.Open?
    ensures ViewOf(Worked(w, op), op.k) == OwnStep(ViewOf(w, op.k), op, NoHint())
  {
    match op.call
    case Write(_, _) => WriteOwn(w, op);
    case Merging(on) => ApplyEffect(w, op.k, SetMerge(w.chans[op.k], on));
    case EndOfData => ApplyEffect(w, op.k, SendEof(w.chans[op.k], op.env.eofSend));
    case Start(_, _) => StartOwn(w, op);
    case Open(extra) => OpenOwn(w, op.k, extra, op.env);
  }

  lemma WorkIsLocal(w: World, op: Op) returns (h: Hint)
    requires Callable(w, op) && w.chans[op.k].local.id == op.k
    ensures h.n <= |op.env.arrivals|
    ensures op.call.FlushStream? ==>
              h.flushed == Flush(op.k, op.call.which, w.packets) && h.flushed.discarded <= ViewOf(w, op.k).queued
    ensures ViewOf(Worked(w, op), op.k) == OwnStep(ViewOf(w, op.k), op, h)
  {
    h := NoHint();
    match op.call
    case Read(stream, buflen) =>
      var a := ReadPrepare(w.chans[op.k], buflen, op.env.send);
      var t := ReadOwn(w, op.k, a, stream, buflen, op.env);
      h := h.(taken := t);
    case AdjustWindow(a, force) => ApplyEffect(w, op.k, Adjust(w.chans[op.k], a, force, op.env.send));
    case FlushStream(which) => FlushOwn(w, op); h := h.(flushed := Flush(op.k, which, w.packets));
    case Shut => var n, done := ShutOwn(w, op.k, op.env); h := h.(n := n, done := done);
    case Free =>
      if !w.chans[op.k].local.close && op.env.connected {
        var n, done := ShutOwn(w, op.k, op.env);
        h := h.(n := n, done := done);
      }
    case Receive => DrainDelivers(w, op.env.arrivals, op.k);
    case _ => SendingIsLocal(w, op);
  }

  /** What a call does to its channel is a function of the channel's own share and of a hint: how much of what
      arrives, and of what is queued, the call gets to see. If it takes the channel away, the trace it leaves
      is that of the same function. */
  lemma CallsAreLocal(w: World, op: Op) returns (h: Hint)
    requires Callable(w, op) && w.chans[op.k].local.id == op.k
    ensures h.n <= |op.env.arrivals|
    ensures op.call.FlushStream? ==>
              h.flushed == Flush(op.k, op.call.which, w.packets) && h.flushed.discarded <= ViewOf(w, op.k).queued
    ensures op.k in Step(w, op).chans ==> ViewOf(Step(w, op), op.k) == OwnStep(ViewOf(w, op.k), op, h)
    ensures Own(Step(w, op).wire, op.k) == OwnStep(ViewOf(w, op.k), op, h).own
  {
    hide Step, Worked, OwnStep;
    h := WorkIsLocal(w, op);
    StepOfWorked(w, op);
  }

  // ---- What a call leaves alone ----

  /** Channels are filed under their own id. */
  ghost predicate Keyed(w: World) {
    forall k :: k in w.chans ==> w.chans[k].local.id == k
  }

  /** Channel `j` cannot tell `w'` from `w`. */
  predicate SameView(w: World, w': World, j: u32) {
    j in w.chans && j in w'.chans && ViewOf(w', j) == ViewOf(w, j)
  }

  /** Channel `j` sees the first `n` messages arrive, and nothing else. */
  predicate SeesArrivals(w: World, w': World, j: u32, arrivals: seq<Message>, n: nat) {
    j in w.chans && j in w'.chans && n <= |arrivals| && ViewOf(w', j) == Deliver(j, ViewOf(w, j), arrivals[..n])
  }

  lemma ApplySame(w: World, k: u32, a: Act, j: u32)
    requires j in w.chans && j != k
    ensures SameView(w, Apply(w, k, a), j)
  {
  }

  lemma DrainSeen(w: World, arrivals: seq<Message>, j: u32)
    requires j in w.chans
    ensures SeesArrivals(w, Drain(w, arrivals), j, arrivals, |arrivals|)
  {
    DrainDelivers(w, arrivals, j);
    assert arrivals[..|arrivals|] == arrivals;
  }

  lemma ReadTakeSame(w: World, k: u32, stream: i32, buflen: nat, readEnd: ReadEnd, j: u32)
    requires k in w.chans && w.chans[k].local.id == k && j in w.chans && j != k
    ensures SameView(w, ReadTake(w, k, stream, buflen, readEnd).w, j)
  {
    ReadCountsQueued(Reader(k, stream, w.chans[k].merge), w.packets, buflen, j);
  }

  lemma ReadSeen(w: World, k: u32, a: Act, stream: i32, buflen: nat, env: Env, j: u32) returns (n: nat)
    requires k in w.chans && a.c.local.id == k && j in w.chans && j != k
    ensures SeesArrivals(w, ReadAfter(w, k, a, stream, buflen, env).w, j, env.arrivals, n)
  {
    var w1 := Apply(w, k, a);
    ApplySame(w, k, a, j);
    n := 0;
    if a.rc == 0 {
      n := |env.arrivals|;
      DrainSeen(w1, env.arrivals, j);
      if !Broken(env.readEnd) {
        DrainDelivers(w1, env.arrivals, k);
        DeliverKeepsId(k, ViewOf(w1, k), env.arrivals);
        ReadTakeSame(Drain(w1, env.arrivals), k, stream, buflen, env.readEnd, j);
      }
    }
  }

  lemma FlushSame(w: World, op: Op, j: u32)
    requires Callable(w, op) && op.call.FlushStream? && w.chans[op.k].local.id == op.k && j in w.chans && j != op.k
    ensures SameView(w, Step(w, op), j)
  {
    var k, c := op.k, w.chans[op.k];
    var f := Flush(k, op.call.which, w.packets);
    FlushCountsBytes(k, op.call.which, w.packets, j);
    var w1 := if c.flush.state == Idle then w.(packets := f.left) else w;
    ApplySame(w1, k, FlushAct(c, f, op.env.send), j);
  }

  lemma WriteSeen(w: World, op: Op, j: u32) returns (n: nat)
    requires Callable(w, op) && op.call.Write? && j in w.chans && j != op.k
    ensures SeesArrivals(w, Step(w, op), j, op.env.arrivals, n)
  {
    var k, buf, c := op.k, op.call.buf, w.chans[op.k];
    n := 0;
    if c.write.state == Created {
      ApplySame(w, k, SendParked(c, buf, op.env.send), j);
    } else if c.write.state == Idle && !c.local.close && !c.local.eof {
      n := |op.env.arrivals|;
      DrainSeen(w, op.env.arrivals, j);
      var w1 := Drain(w, op.env.arrivals);
      ApplySame(w1, k, SendParked(Park(w1.chans[k], op.call.stream, |buf|), buf, op.env.send), j);
    }
  }

  lemma CloseSeen(w: World, k: u32, e: Act, env: Env, j: u32) returns (n: nat)
    requires k in w.chans && j in w.chans && j != k
    ensures SeesArrivals(w, CloseAfter(w, k, e, env).w, j, env.arrivals, n)
  {
    n := 0;
    var w1 := Apply(w, k, e);
    ApplySame(w, k, e, j);
    if e.rc != ERROR_EAGAIN {
      var a := SendClose(e.c, e.rc, env.send);
      ApplySame(w1, k, a, j);
      if a.c.close.state == Sent && a.rc == 0 && env.connected {
        n := AwaitDelivers(Apply(w1, k, a), k, env.arrivals, env.readEnd, j);
      }
    }
  }

  lemma ShutSeen(w: World, k: u32, env: Env, j: u32) returns (n: nat)
    requires k in w.chans && j in w.chans && j != k
    ensures SeesArrivals(w, CloseCall(w, k, env).w, j, env.arrivals, n)
  {
    n := 0;
    if !w.chans[k].local.close {
      n := CloseSeen(w, k, EofBeforeClose(w.chans[k], env.eofSend), env, j);
    }
  }

  lemma ShutViewKeepsId(k: u32, v: View, env: Env, n: nat, done: bool)
    requires n <= |env.arrivals|
    ensures ShutView(k, v, env, n, done).c.local.id == v.c.local.id
  {
    if !v.c.local.close {
      var e := EofBeforeClose(v.c, env.eofSend);
      DeliverKeepsId(k, Effect(Effect(v, e), SendClose(e.c, e.rc, env.send)), env.arrivals[..n]);
    }
  }

  lemma FreeSeen(w: World, k: u32, env: Env, j: u32) returns (n: nat)
    requires k in w.chans && w.chans[k].local.id == k && j in w.chans && j != k
    ensures SeesArrivals(w, FreeCall(w, k, env).w, j, env.arrivals, n)
  {
    n := 0;
    var o := Outcome(w, 0);
    if !w.chans[k].local.close && env.connected {
      n := ShutSeen(w, k, env, j);
      o := CloseCall(w, k, env);
      var m, done := ShutOwn(w, k, env);
      ShutViewKeepsId(k, ViewOf(w, k), env, m, done);
      assert ViewOf(o.w, k).c.local.id == k;
    }
    RemoveSame(o.w, k, j);
  }

  lemma RemoveSame(w: World, k: u32, j: u32)
    requires k in w.chans && w.chans[k].local.id == k && j in w.chans && j != k
    ensures SameView(w, Remove(w, k), j)
  {
    UnlinkIsExact(AllData(k), AllData(j), w.packets);
  }

  lemma StartReplySeen(w: World, k: u32, env: Env, j: u32) returns (n: nat)
    requires k in w.chans && j in w.chans && j != k
    ensures SeesArrivals(w, StartReply(w, k, env).w, j, env.arrivals, n)
  {
    var waits := w.chans[k].process.state == Sent;
    n := if waits then |env.arrivals| else 0;
    DrainSeen(w, env.arrivals, j);
    var w1 := if waits then Drain(w, env.arrivals) else w;
    ApplySame(w1, k, AwaitStart(w1.chans[k], env.reply), j);
  }

  lemma StartSeen(w: World, op: Op, j: u32) returns (n: nat)
    requires Callable(w, op) && op.call.Start? && j in w.chans && j != op.k
    ensures SeesArrivals(w, Step(w, op), j, op.env.arrivals, n)
  {
    n := 0;
    var k, c := op.k, w.chans[op.k];
    if c.process.state != End {
      var a := SendStart(c, op.call.request, op.call.message, op.env.send);
      ApplySame(w, k, a, j);
      if a.rc == 0 {
        n := StartReplySeen(Apply(w, k, a), k, op.env, j);
      }
    }
  }

  lemma OpenReplySeen(w: World, k: u32, env: Env, j: u32)
    requires k in w.chans && j in w.chans && j != k
    ensures var w1 := Drain(w, env.arrivals);
            SeesArrivals(w, Apply(w1, k, AwaitOpen(w1.chans[k], env.openReply)), j, env.arrivals, |env.arrivals|)
  {
    DrainSeen(w, env.arrivals, j);
    var w1 := Drain(w, env.arrivals);
    ApplySame(w1, k, AwaitOpen(w1.chans[k], env.openReply), j);
  }

  lemma OpenKeepsId(w: World, k: u32, extra: bytes, env: Env)
    requires k in w.chans
    ensures OpenTry(w, k, extra, env).w.chans[k].local.id == w.chans[k].local.id
  {
    var w1 := Apply(w, k, SendOpen(w.chans[k], extra, env.send));
    DrainKeepsId(w1, env.arrivals, k);
  }

  lemma DrainKeepsId(w: World, arrivals: seq<Message>, k: u32)
    requires k in w.chans
    ensures Drain(w, arrivals).chans[k].local.id == w.chans[k].local.id
  {
    DrainDelivers(w, arrivals, k);
    DeliverKeepsId(k, ViewOf(w, k), arrivals);
    assert ViewOf(Drain(w, arrivals), k).c == Drain(w, arrivals).chans[k];
  }

  lemma OpenTrySeen(w: World, k: u32, extra: bytes, env: Env, j: u32) returns (n: nat)
    requires k in w.chans && j in w.chans && j != k
    ensures SeesArrivals(w, OpenTry(w, k, extra, env).w, j, env.arrivals, n)
  {
    n := 0;
    var a := SendOpen(w.chans[k], extra, env.send);
    ApplySame(w, k, a, j);
    if a.rc == 0 {
      n := |env.arrivals|;
      OpenReplySeen(Apply(w, k, a), k, env, j);
    }
  }

  lemma OpenSeen(w: World, k: u32, extra: bytes, env: Env, j: u32) returns (n: nat)
    requires k in w.chans && w.chans[k].local.id == k && j in w.chans && j != k
    ensures SeesArrivals(w, OpenOn(w, k, extra, env).w, j, env.arrivals, n)
  {
    n := OpenTrySeen(w, k, extra, env, j);
    OpenKeepsId(w, k, extra, env);
    RemoveSame(OpenTry(w, k, extra, env).w, k, j);
  }

  /** A call on one channel does nothing to another but let it receive: its packets in the shared
      queue, its counters and its trace are what the messages that arrived make of them. */
  lemma CallsDoNotInterfere(w: World, op: Op, j: u32) returns (n: nat)
    requires Callable(w, op) && w.chans[op.k].local.id == op.k && j in w.chans && j != op.k
    ensures SeesArrivals(w, Step(w, op), j, op.env.arrivals, n)
  {
    hide SeesArrivals, ViewOf, Deliver, WriteCall, ReadAfter, FlushCall, CloseCall, FreeCall, StartCall, OpenOn;
    n := 0;
    match op.call
    case Write(_, _) => n := WriteSeen(w, op, j);
    case Read(stream, buflen) =>
      n := ReadSeen(w, op.k, ReadPrepare(w.chans[op.k], buflen, op.env.send), stream, buflen, op.env, j);
    case Shut => n := ShutSeen(w, op.k, op.env, j);
    case Free => n := FreeSeen(w, op.k, op.env, j);
    case Start(_, _) => n := StartSeen(w, op, j);
    case Open(extra) => n := OpenSeen(w, op.k, extra, op.env, j);
    case Receive => n := |op.env.arrivals|; DrainSeen(w, op.env.arrivals, j);
    case _ => QuietSeen(w, op, j);
  }

  /** Calls that only act on their channel. */
  lemma QuietSeen(w: World, op: Op, j: u32)
    requires Callable(w, op) && w.chans[op.k].local.id == op.k && j in w.chans && j != op.k
    requires op.call.AdjustWindow? || op.call.FlushStream? || op.call.Merging? || op.call.EndOfData?
    ensures SeesArrivals(w, Step(w, op), j, op.env.arrivals, 0)
  {
    match op.call
    case AdjustWindow(a, force) => ApplySame(w, op.k, Adjust(w.chans[op.k], a, force, op.env.send), j);
    case FlushStream(_) => FlushSame(w, op, j);
    case Merging(on) => ApplySame(w, op.k, SetMerge(w.chans[op.k], on), j);
    case EndOfData => ApplySame(w, op.k, SendEof(w.chans[op.k], op.env.eofSend), j);
  }

  /** A call adds no channel, and takes at most its own away. */
  lemma StepKeepsKeys(w: World, op: Op, k: u32)
    requires Callable(w, op) && k in Step(w, op).chans
    ensures k in w.chans
  {
  }

  lemma WriteViewKeepsId(k: u32, v: View, stream: i32, buf: bytes, env: Env)
    requires v.c.write.state == Created ==> v.c.write.len <= |buf|
    ensures WriteView(k, v, stream, buf, env).c.local.id == v.c.local.id
  {
    DeliverKeepsId(k, v, env.arrivals);
  }

  lemma ReadViewKeepsId(k: u32, v: View, buflen: nat, env: Env, taken: nat)
    ensures ReadView(k, v, ReadPrepare(v.c, buflen, env.send), env, taken).c.local.id == v.c.local.id
  {
    DeliverKeepsId(k, Effect(v, ReadPrepare(v.c, buflen, env.send)), env.arrivals);
  }

  lemma FlushViewKeepsId(v: View, f: Flushed, env: Env)
    ensures FlushView(v, f, env).c.local.id == v.c.local.id
  {
  }

  lemma StartViewKeepsId(k: u32, v: View, request: Text, message: Option<bytes>, env: Env)
    ensures StartView(k, v, request, message, env).c.local.id == v.c.local.id
  {
    DeliverKeepsId(k, Effect(v, SendStart(v.c, request, message, env.send)), env.arrivals);
  }

  lemma OpenViewKeepsId(k: u32, v: View, extra: bytes, env: Env)
    ensures OpenView(k, v, extra, env).c.local.id == v.c.local.id
  {
    DeliverKeepsId(k, Effect(v, SendOpen(v.c, extra, env.send)), env.arrivals);
  }

  lemma OwnStepKeepsId(v: View, op: Op, h: Hint)
    requires op.call.Write? && v.c.write.state == Created ==> v.c.write.len <= |op.call.buf|
    requires h.n <= |op.env.arrivals|
    ensures OwnStep(v, op, h).c.local.id == v.c.local.id
  {
    match op.call
    case Write(stream, buf) => WriteViewKeepsId(op.k, v, stream, buf, op.env);
    case Read(_, buflen) => ReadViewKeepsId(op.k, v, buflen, op.env, h.taken);
    case Shut => ShutViewKeepsId(op.k, v, op.env, h.n, h.done);
    case Free => ShutViewKeepsId(op.k, v, op.env, h.n, h.done);
    case Start(request, message) => StartViewKeepsId(op.k, v, request, message, op.env);
    case Open(extra) => OpenViewKeepsId(op.k, v, extra, op.env);
    case FlushStream(_) => FlushViewKeepsId(v, h.flushed, op.env);
    case Receive => DeliverKeepsId(op.k, v, op.env.arrivals);
    case _ =>
  }

  lemma StepKeepsKeyed(w: World, op: Op)
    requires Callable(w, op) && Keyed(w)
    ensures Keyed(Step(w, op))
  {
    forall k | k in Step(w, op).chans
      ensures Step(w, op).chans[k].local.id == k
    {
      StepKeepsKeys(w, op, k);
      if k == op.k {
        var h := CallsAreLocal(w, op);
        OwnStepKeepsId(ViewOf(w, k), op, h);
        assert ViewOf(Step(w, op), k).c.local.id == k;
      } else {
        var n := CallsDoNotInterfere(w, op, k);
        DeliverKeepsId(k, ViewOf(w, k), op.env.arrivals[..n]);
        assert ViewOf(Step(w, op), k).c.local.id == k;
      }
    }
  }

  // ---- What the shared queue holds ----

  /** Whatever is queued for the channels of a session is of a kind. */
  ghost predicate Admits(f: Pick, keys: set<u32>) {
    && Stable(f)
    && (forall c: Chan, m: Message :: Keeps(c, m) && NtohU32(m[1..]) in keys ==> AllHold(f, QueuedFor(c, m)))
    && (forall m: Message :: HeadOf(m[0]) == 0 ==> f(RawPacket(m, |m|, 0)))
  }

  lemma AddKeepsAll(f: Pick, w: World, m: Message)
    requires Admits(f, w.chans.Keys) && AllHold(f, w.packets)
    ensures AllHold(f, PacketAdd(w, m).packets)
  {
  }

  lemma {:induction false} DrainKeepsAll(f: Pick, w: World, arrivals: seq<Message>)
    requires Admits(f, w.chans.Keys) && AllHold(f, w.packets)
    ensures AllHold(f, Drain(w, arrivals).packets)
    decreases |arrivals|
  {
    if arrivals != [] {
      AddKeepsAll(f, w, arrivals[0]);
      DrainKeepsAll(f, PacketAdd(w, arrivals[0]), arrivals[1..]);
    }
  }

  lemma {:induction false} AwaitKeepsAll(f: Pick, w: World, k: u32, arrivals: seq<Message>, readEnd: ReadEnd)
    requires k in w.chans && Admits(f, w.chans.Keys) && AllHold(f, w.packets)
    ensures AllHold(f, AwaitClose(w, k, arrivals, readEnd).w.packets)
    decreases |arrivals|
  {
    if !w.chans[k].remote.close && arrivals != [] {
      AddKeepsAll(f, w, arrivals[0]);
      AwaitKeepsAll(f, PacketAdd(w, arrivals[0]), k, arrivals[1..], readEnd);
    }
  }

  lemma ShutKeepsAll(f: Pick, w: World, k: u32, env: Env)
    requires k in w.chans && Admits(f, w.chans.Keys) && AllHold(f, w.packets)
    ensures AllHold(f, CloseCall(w, k, env).w.packets)
  {
    var c := w.chans[k];
    if !c.local.close {
      var e := EofBeforeClose(c, env.eofSend);
      AwaitKeepsAll(f, Apply(Apply(w, k, e), k, SendClose(e.c, e.rc, env.send)), k, env.arrivals, env.readEnd);
    }
  }

  lemma ReadKeepsAll(f: Pick, w: World, k: u32, stream: i32, buflen: nat, env: Env)
    requires k in w.chans && Admits(f, w.chans.Keys) && AllHold(f, w.packets)
    ensures AllHold(f, ReadCall(w, k, stream, buflen, env).w.packets)
  {
    var w1 := Apply(w, k, ReadPrepare(w.chans[k], buflen, env.send));
    DrainKeepsAll(f, w1, env.arrivals);
    var w2 := Drain(w1, env.arrivals);
    ConsumingKeepsAll(f, By(Reader(w2.chans[k].local.id, stream, w2.chans[k].merge)), w2.packets, buflen, k, stream);
  }

  lemma FreeKeepsAll(f: Pick, w: World, k: u32, env: Env)
    requires k in w.chans && Admits(f, w.chans.Keys) && AllHold(f, w.packets)
    ensures AllHold(f, FreeCall(w, k, env).w.packets)
  {
    ShutKeepsAll(f, w, k, env);
    var o := BeforeFree(w, k, env);
    RemoveKeepsAll(f, o.w, k);
  }

  lemma RemoveKeepsAll(f: Pick, w: World, k: u32)
    requires k in w.chans && Stable(f) && AllHold(f, w.packets)
    ensures AllHold(f, Remove(w, k).packets)
  {
    ConsumingKeepsAll(f, AllData(w.chans[k].local.id), w.packets, 0, k, 0);
  }

  lemma FlushKeepsAll(f: Pick, w: World, k: u32, stream: i32, env: Env)
    requires k in w.chans && Admits(f, w.chans.Keys) && AllHold(f, w.packets)
    ensures AllHold(f, FlushCall(w, k, stream, env).w.packets)
  {
    ConsumingKeepsAll(f, f, w.packets, 0, w.chans[k].local.id, stream);
  }

  lemma WriteKeepsAll(f: Pick, w: World, op: Op)
    requires Callable(w, op) && op.call.Write? && Admits(f, w.chans.Keys) && AllHold(f, w.packets)
    ensures AllHold(f, Step(w, op).packets)
  {
    DrainKeepsAll(f, w, op.env.arrivals);
  }

  lemma StartKeepsAll(f: Pick, w: World, op: Op)
    requires Callable(w, op) && op.call.Start? && Admits(f, w.chans.Keys) && AllHold(f, w.packets)
    ensures AllHold(f, Step(w, op).packets)
  {
    hide Admits, AllHold, SendStart, AwaitStart;
    var w1 := Apply(w, op.k, SendStart(w.chans[op.k], op.call.request, op.call.message, op.env.send));
    DrainKeepsAll(f, w1, op.env.arrivals);
  }

  lemma OpenKeepsAll(f: Pick, w: World, k: u32, extra: bytes, env: Env)
    requires k in w.chans && Admits(f, w.chans.Keys) && AllHold(f, w.packets)
    ensures AllHold(f, OpenOn(w, k, extra, env).w.packets)
  {
    DrainKeepsAll(f, Apply(w, k, SendOpen(w.chans[k], extra, env.send)), env.arrivals);
    RemoveKeepsAll(f, OpenTry(w, k, extra, env).w, k);
  }

  /** Calls that neither receive nor consume. */
  predicate LeavesQueue(call: Call) {
    call.AdjustWindow? || call.Merging? || call.EndOfData?
  }

  lemma StepLeavesQueue(w: World, op: Op)
    requires Callable(w, op) && LeavesQueue(op.call)
    ensures Step(w, op).packets == w.packets
  {
  }

  /** Every call keeps the queue of a kind that the session admits. */
  lemma StepKeepsAll(f: Pick, w: World, op: Op)
    requires Callable(w, op) && Admits(f, w.chans.Keys) && AllHold(f, w.packets)
    ensures AllHold(f, Step(w, op).packets)
  {
    hide AllHold, Admits, WriteCall, ReadCall, FlushCall, CloseCall, FreeCall, StartCall, OpenOn;
    if LeavesQueue(op.call) {
      StepLeavesQueue(w, op);
    } else {
      var w' := Step(w, op);
      match op.call
      case Write(_, _) => WriteKeepsAll(f, w, op);
      case Read(stream, buflen) =>
        assert w' == ReadCall(w, op.k, stream, buflen, op.env).w;
        ReadKeepsAll(f, w, op.k, stream, buflen, op.env);
      case FlushStream(which) =>
        assert w' == FlushCall(w, op.k, which, op.env).w;
        FlushKeepsAll(f, w, op.k, which, op.env);
      case Shut =>
        assert w' == CloseCall(w, op.k, op.env).w;
        ShutKeepsAll(f, w, op.k, op.env);
      case Free =>
        assert w' == FreeCall(w, op.k, op.env).w;
        FreeKeepsAll(f, w, op.k, op.env);
      case Start(_, _) => StartKeepsAll(f, w, op);
      case Open(extra) =>
        assert w' == OpenOn(w, op.k, extra, op.env).w;
        OpenKeepsAll(f, w, op.k, extra, op.env);
      case Receive =>
        assert w' == Drain(w, op.env.arrivals);
        DrainKeepsAll(f, w, op.env.arrivals);
    }
  }
}
