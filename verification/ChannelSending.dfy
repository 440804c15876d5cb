/**
 Sending: a write is transparent to EAGAIN, a loop of writes loses nothing, and no channel ever
 sends beyond the credit the peer gave it.
 */
module ChannelSending {
  import opened Bytes
  import opened PacketQueue
  import opened ChannelSpec
  import opened ChannelTraces
  import opened ChannelSteps
  import opened ChannelRuns

  // ---- One write, resumed until it is done ----

  /** One attempt: what other calls receive for the session first, and the surroundings of the attempt. */
  datatype Turn = Turn(between: seq<Message>, env: Env)

  lemma DrainKeepsWrite(w: World, arrivals: seq<Message>, k: u32)
    requires k in w.chans
    ensures OnlyReceived(w.chans[k], Drain(w, arrivals).chans[k])
    ensures Said(Drain(w, arrivals).wire) == Said(w.wire)
    ensures SentData(Own(Drain(w, arrivals).wire, k)) == SentData(Own(w.wire, k))
  {
    DrainDelivers(w, arrivals, k);
    DeliverFrame(k, ViewOf(w, k), arrivals);
    DeliverAside(k, ViewOf(w, k), arrivals);
    DrainReplied(w, arrivals, k);
    assert ViewOf(Drain(w, arrivals), k).own == Own(Drain(w, arrivals).wire, k);
  }

  /** Apart from replies to requests, one packet was sent, and it was the last. */
  predicate SentOne(before: seq<Outgoing>, after: seq<Outgoing>, o: Outgoing) {
    |after| > 0 && after[|after| - 1] == o && Said(after[..|after| - 1]) == Said(before)
  }

  lemma SentOneOfAppend(before: seq<Outgoing>, after: seq<Outgoing>, o: Outgoing)
    requires Said(after) == Said(before)
    ensures SentOne(before, after + [o], o)
  {
  }

  predicate Resumable(w: World, k: u32, buf: bytes) {
    k in w.chans && (w.chans[k].write.state == Created ==> w.chans[k].write.len <= |buf|)
  }

  lemma CallStaysResumable(w: World, k: u32, stream: i32, buf: bytes, env: Env)
    requires Resumable(w, k, buf)
    ensures var o := WriteCall(w, k, stream, buf, env);
            Resumable(o.w, k, buf) && (o.rc >= 0 ==> o.rc <= |buf| && o.w.chans[k].write.state != Created)
  {
    hide Drain, Said, SentData, Own, DataHeader;
    DrainKeepsWrite(w, env.arrivals, k);
  }

  lemma AttemptStaysResumable(w: World, k: u32, stream: i32, buf: bytes, turn: Turn)
    requires Resumable(w, k, buf)
    ensures Resumable(Drain(w, turn.between), k, buf)
    ensures var o := WriteCall(Drain(w, turn.between), k, stream, buf, turn.env);
            Resumable(o.w, k, buf) && (o.rc >= 0 ==> o.rc <= |buf| && o.w.chans[k].write.state != Created)
  {
    DrainKeepsWrite(w, turn.between, k);
    CallStaysResumable(Drain(w, turn.between), k, stream, buf, turn.env);
  }

  /** The same write, attempted again for as long as it would block. */
  function WriteUntilDone(w: World, k: u32, stream: i32, buf: bytes, turns: seq<Turn>): Outcome
    requires Resumable(w, k, buf)
    decreases |turns|
  {
    if turns == [] then Outcome(w, ERROR_EAGAIN)
    else
      AttemptStaysResumable(w, k, stream, buf, turns[0]);
      var o := WriteCall(Drain(w, turns[0].between), k, stream, buf, turns[0].env);
      if o.rc != ERROR_EAGAIN then o else WriteUntilDone(o.w, k, stream, buf, turns[1..])
  }

  /** The channel as the first attempt that found room in the window saw it. */
  function LeftIdle(w: World, k: u32, turns: seq<Turn>): Option<Chan>
    requires k in w.chans
    decreases |turns|
  {
    if turns == [] then None
    else
      var w0 := Drain(w, turns[0].between);
      var w1 := Drain(w0, turns[0].env.arrivals);
      if w0.chans[k].local.close || w0.chans[k].local.eof || Broken(turns[0].env.readEnd) then None
      else if w1.chans[k].local.window > 0 then Some(w1.chans[k])
      else if turns[0].env.readEnd == ERROR_EAGAIN then LeftIdle(w1, k, turns[1..])
      else None
  }

  /** One attempt at a parked write. */
  lemma ParkedAttempt(w: World, k: u32, stream: i32, buf: bytes, env: Env)
    requires Resumable(w, k, buf) && w.chans[k].write.state == Created
    ensures var c, o := w.chans[k], WriteCall(w, k, stream, buf, env);
            if o.rc == ERROR_EAGAIN then o.w.wire == w.wire && Resumable(o.w, k, buf) && o.w.chans[k].write == c.write
            else
              && k in o.w.chans && o.w.chans[k].write.state == Idle
              && if o.rc < 0 then o.w.wire == w.wire && env.send == Failed(o.rc)
                 else o.rc == c.write.len && o.w.wire == w.wire + [Outgoing(k, c.write.packet + buf[..c.write.len])]
  {
  }

  /** A parked write, whatever is received meanwhile, puts nothing on the wire until it is accepted (replies to
      requests aside), and then exactly the packet it parked; a write that does not block again is parked no more. */
  lemma {:induction false} ParkedWriteIsTransparent(w: World, k: u32, stream: i32, buf: bytes, turns: seq<Turn>)
    requires Resumable(w, k, buf) && w.chans[k].write.state == Created
    ensures var c, o := w.chans[k], WriteUntilDone(w, k, stream, buf, turns);
            && k in o.w.chans && (o.rc != ERROR_EAGAIN ==> o.w.chans[k].write.state == Idle)
            && if o.rc < 0 then Said(o.w.wire) == Said(w.wire)
               else o.rc == c.write.len && SentOne(w.wire, o.w.wire, Outgoing(k, c.write.packet + buf[..c.write.len]))
    decreases |turns|
  {
    hide Said, Drain, WriteCall, SentData, Own;
    if turns != [] {
      AttemptStaysResumable(w, k, stream, buf, turns[0]);
      DrainKeepsWrite(w, turns[0].between, k);
      var w0 := Drain(w, turns[0].between);
      var c := w0.chans[k];
      ParkedAttempt(w0, k, stream, buf, turns[0].env);
      SentOneOfAppend(w.wire, w0.wire, Outgoing(k, c.write.packet + buf[..c.write.len]));
      var o := WriteCall(w0, k, stream, buf, turns[0].env);
      if o.rc == ERROR_EAGAIN {
        ParkedWriteIsTransparent(o.w, k, stream, buf, turns[1..]);
      }
    }
  }

  /** The first attempt of a write, made in the idle state. */
  lemma FirstAttempt(w: World, k: u32, stream: i32, buf: bytes, env: Env)
    requires k in w.chans && w.chans[k].write.state == Idle
    ensures var c, o, w1 := w.chans[k], WriteCall(w, k, stream, buf, env), Drain(w, env.arrivals);
            var n := WriteSize(w1.chans[k], |buf|);
            if c.local.close then o == Outcome(w, ERROR_CHANNEL_CLOSED)
            else if c.local.eof then o == Outcome(w, ERROR_CHANNEL_EOF_SENT)
            else if Broken(env.readEnd) then o.w == w1 && o.rc == env.readEnd
            else if w1.chans[k].local.window == 0 then o.w == w1 && o.rc == if env.readEnd == ERROR_EAGAIN then ERROR_EAGAIN else 0
            else if o.rc == ERROR_EAGAIN then
              && o.w.wire == w1.wire && k in o.w.chans
              && o.w.chans[k].write == Writing(Created, DataHeader(c.remote.id, stream, n), n)
            else
              && k in o.w.chans && o.w.chans[k].write.state == Idle
              && if o.rc < 0 then o.w.wire == w1.wire && env.send == Failed(o.rc)
                 else o.rc == n && o.w.wire == w1.wire + [Outgoing(k, DataHeader(c.remote.id, stream, n) + buf[..n])]
  {
    hide Said, SentData, Drain;
    DrainKeepsWrite(w, env.arrivals, k);
  }

  /** A write is transparent to would-block. Under every schedule of refusals and arrivals, a write
      begun in the idle state leaves the wire alone unless it succeeds, replies to requests aside, and when
      it succeeds it has put one packet on it: the first min(length, 32700, window, packet size) octets, with
      the window as it was when the write left the idle state. It ends in the idle state unless it still blocks. */
  lemma {:induction false} WriteIsTransparent(w: World, k: u32, stream: i32, buf: bytes, turns: seq<Turn>)
    requires k in w.chans && w.chans[k].write.state == Idle
    ensures var o, left := WriteUntilDone(w, k, stream, buf, turns), LeftIdle(w, k, turns);
            && k in o.w.chans && (o.rc != ERROR_EAGAIN ==> o.w.chans[k].write.state == Idle)
            && if left.None? || o.rc < 0 then Said(o.w.wire) == Said(w.wire) && o.rc <= 0
               else
                 && o.rc == Min(Min(Min(|buf|, 32700), left.value.local.window), left.value.local.packetSize)
                 && SentOne(w.wire, o.w.wire, Outgoing(k, DataHeader(w.chans[k].remote.id, stream, o.rc) + buf[..o.rc]))
    decreases |turns|
  {
    hide Said, Drain;
    if turns != [] {
      AttemptStaysResumable(w, k, stream, buf, turns[0]);
      DrainKeepsWrite(w, turns[0].between, k);
      var w0 := Drain(w, turns[0].between);
      FirstAttempt(w0, k, stream, buf, turns[0].env);
      var w1 := Drain(w0, turns[0].env.arrivals);
      DrainKeepsWrite(w0, turns[0].env.arrivals, k);
      var o := WriteCall(w0, k, stream, buf, turns[0].env);
      if o.rc == ERROR_EAGAIN {
        if w1.chans[k].local.window > 0 {
          ParkedWriteIsTransparent(o.w, k, stream, buf, turns[1..]);
        } else {
          WriteIsTransparent(w1, k, stream, buf, turns[1..]);
        }
      } else if o.rc >= 0 {
        SentOneOfAppend(w.wire, w1.wire, Outgoing(k, DataHeader(w.chans[k].remote.id, stream, o.rc) + buf[..o.rc]));
      }
    }
  }

  // ---- A loop of writes ----

  datatype Progress = Progress(w: World, sent: nat)

  /** The sending loop of the examples: after EAGAIN the same slice again, after success the rest. */
  function SendAll(w: World, k: u32, stream: i32, buf: bytes, turns: seq<Turn>): Progress
    requires Resumable(w, k, buf)
    decreases |turns|
  {
    if turns == [] || buf == [] then Progress(w, 0)
    else
      AttemptStaysResumable(w, k, stream, buf, turns[0]);
      var o := WriteCall(Drain(w, turns[0].between), k, stream, buf, turns[0].env);
      if o.rc == ERROR_EAGAIN then SendAll(o.w, k, stream, buf, turns[1..])
      else if o.rc < 0 then Progress(o.w, 0)
      else
        var p := SendAll(o.w, k, stream, buf[o.rc..], turns[1..]);
        p.(sent := p.sent + o.rc)
  }

  lemma ParkIsShaped(c: Chan, stream: i32, buflen: nat)
    requires Shaped(c)
    ensures Shaped(Park(c, stream, buflen)) && Park(c, stream, buflen).write.len <= buflen
  {
  }

  /** Accepted or not, a parked write adds to the data of its channel what it reports as written. */
  lemma ParkedSends(w: World, k: u32, c: Chan, buf: bytes, ans: SendAnswer)
    requires k in w.chans && c.write.len <= |buf| && Shaped(c) && c.write.state == Created
    ensures var a := SendParked(c, buf, ans);
            && Shaped(a.c) && a.rc <= |buf|
            && SentData(Own(Apply(w, k, a).wire, k)) == SentData(Own(w.wire, k)) + buf[..if a.rc < 0 then 0 else a.rc]
  {
  }

  /** What one attempt adds to the data a channel has sent is what it reports as written. */
  predicate Sends(w: World, o: Outcome, k: u32, buf: bytes) {
    && k in o.w.chans && Shaped(o.w.chans[k]) && o.rc <= |buf|
    && SentData(Own(o.w.wire, k)) == SentData(Own(w.wire, k)) + buf[..if o.rc < 0 then 0 else o.rc]
  }

  lemma IdleCallSends(w: World, k: u32, stream: i32, buf: bytes, env: Env)
    requires k in w.chans && Shaped(w.chans[k]) && w.chans[k].write.state == Idle
    ensures Sends(w, WriteCall(w, k, stream, buf, env), k, buf)
  {
    var c, w1 := w.chans[k], Drain(w, env.arrivals);
    DrainKeepsWrite(w, env.arrivals, k);
    var d := w1.chans[k];
    assert Shaped(d);
    assert buf[..0] == [];
    if c.local.close || c.local.eof || Broken(env.readEnd) || d.local.window == 0 {
      var rc := WriteCall(w, k, stream, buf, env).rc;
      assert rc <= 0;
    } else {
      ParkIsShaped(d, stream, |buf|);
      ParkedSends(w1, k, Park(d, stream, |buf|), buf, env.send);
    }
  }

  lemma CallSends(w: World, k: u32, stream: i32, buf: bytes, env: Env)
    requires Resumable(w, k, buf) && Shaped(w.chans[k])
    ensures Sends(w, WriteCall(w, k, stream, buf, env), k, buf)
  {
    var c := w.chans[k];
    if c.write.state == Created {
      ParkedSends(w, k, c, buf, env.send);
    } else if c.write.state == Idle {
      IdleCallSends(w, k, stream, buf, env);
    } else {
      assert buf[..0] == [];
    }
  }

  lemma ConcatSlices(s: bytes, buf: bytes, i: nat, j: nat)
    requires i <= |buf| && j <= |buf| - i
    ensures (s + buf[..i]) + buf[i..][..j] == s + buf[..i + j]
  {
  }

  /** The loop sends its buffer with no loss, repetition or reordering: the data the channel sent
      grows by exactly the prefix the loop counts as written. */
  lemma {:induction false} SendAllSendsPrefix(w: World, k: u32, stream: i32, buf: bytes, turns: seq<Turn>)
    requires Resumable(w, k, buf) && Shaped(w.chans[k])
    ensures var p := SendAll(w, k, stream, buf, turns);
            && p.sent <= |buf|
            && SentData(Own(p.w.wire, k)) == SentData(Own(w.wire, k)) + buf[..p.sent]
    decreases |turns|
  {
    if turns == [] || buf == [] {
      assert buf[..0] == [];
    } else {
      AttemptStaysResumable(w, k, stream, buf, turns[0]);
      DrainKeepsWrite(w, turns[0].between, k);
      var w0 := Drain(w, turns[0].between);
      CallSends(w0, k, stream, buf, turns[0].env);
      var o := WriteCall(w0, k, stream, buf, turns[0].env);
      var s := SentData(Own(w.wire, k));
      assert Sends(w, o, k, buf);
      if o.rc == ERROR_EAGAIN {
        SendAllSendsPrefix(o.w, k, stream, buf, turns[1..]);
        assert s + buf[..0] == s;
      } else if o.rc >= 0 {
        SendAllSendsPrefix(o.w, k, stream, buf[o.rc..], turns[1..]);
        ConcatSlices(s, buf, o.rc, SendAll(o.w, k, stream, buf[o.rc..], turns[1..]).sent);
      }
    }
  }

  // ---- Send credit ----

  /** A window adjustment that keeps the window below 2^32, as section 5.2 of RFC 4254 demands. */
  predicate GrantFits(k: u32, v: View, m: Message) {
    IsFor(k, m) ==> v.c.local.window + GrantIn(m) < 0x1_0000_0000
  }

  predicate Fits(k: u32, v: View, arrivals: seq<Message>)
    decreases |arrivals|
  {
    arrivals == [] || (var front := arrivals[..|arrivals| - 1];
                       Fits(k, v, front) && GrantFits(k, Deliver(k, v, front), arrivals[|arrivals| - 1]))
  }

  lemma {:induction false} FitsPrefix(k: u32, v: View, arrivals: seq<Message>, n: nat)
    requires Fits(k, v, arrivals) && n <= |arrivals|
    ensures Fits(k, v, arrivals[..n])
    decreases |arrivals|
  {
    if n < |arrivals| {
      FitsPrefix(k, v, arrivals[..|arrivals| - 1], n);
      assert arrivals[..|arrivals| - 1][..n] == arrivals[..n];
    } else {
      assert arrivals[..n] == arrivals;
    }
  }

  lemma {:induction false} FitsFrame(k: u32, v: View, v': View, arrivals: seq<Message>)
    requires v.c.local.window == v'.c.local.window && Fits(k, v, arrivals)
    ensures Fits(k, v', arrivals)
    ensures Deliver(k, v, arrivals).c.local.window == Deliver(k, v', arrivals).c.local.window
    decreases |arrivals|
  {
    if arrivals != [] {
      FitsFrame(k, v, v', arrivals[..|arrivals| - 1]);
    }
  }

  /** The send window is the initial window, plus what the peer granted, less what was sent; and a
      parked write still fits into it. A channel that is not open yet has sent no data. */
  predicate SendCredit(v: View) {
    && Shaped(v.c)
    && v.c.local.window == v.c.local.windowInitial + v.granted - |SentData(v.own)|
    && (v.c.write.state == Created ==> v.c.write.len <= v.c.local.window)
    && (v.c.opening.state != Idle ==> v.c.write.state == Idle && SentData(v.own) == [])
  }

  /** A window adjustment keeps the account of a channel, with or without a parked write, if and only if
      the sum stays below 2^32. */
  lemma GrantKeepsCreditIff(k: u32, v: View, m: Message)
    requires SendCredit(v)
    ensures SendCredit(Deliver1(k, v, m)) <==> GrantFits(k, v, m)
  {
    hide SentData;
    Deliver1Aside(k, v, m);
  }

  /** A confirmation sets the window, whatever the peer granted before: the account survives it if and only if
      that was nothing. */
  lemma ConfirmKeepsCreditIff(v: View, p: Message)
    requires SendCredit(v) && v.c.opening.state != Idle && Confirms(p)
    ensures SendCredit(Effect(v, AwaitOpen(v.c, Response(p)))) <==> v.granted == 0
  {
  }

  predicate IsConfirmed(reply: OpenReply) {
    reply.Response? && Confirms(reply.packet)
  }

  lemma {:induction false} DeliverKeepsCredit(k: u32, v: View, arrivals: seq<Message>)
    requires SendCredit(v) && Fits(k, v, arrivals)
    ensures SendCredit(Deliver(k, v, arrivals))
    decreases |arrivals|
  {
    if arrivals != [] {
      var v1 := Deliver(k, v, arrivals[..|arrivals| - 1]);
      DeliverKeepsCredit(k, v, arrivals[..|arrivals| - 1]);
      GrantKeepsCreditIff(k, v1, arrivals[|arrivals| - 1]);
    }
  }

  /** An act that sends no data and touches neither the window nor a parked write. */
  predicate Quiet(c: Chan, a: Act) {
    && a.c.local.window == c.local.window && a.c.local.windowInitial == c.local.windowInitial
    && a.c.write == c.write && (a.c.opening.state == Idle <==> c.opening.state == Idle)
    && Shaped(a.c)
    && (a.sent.Some? ==> !IsData(a.sent.value))
  }

  lemma QuietKeepsCredit(v: View, a: Act)
    requires SendCredit(v) && Quiet(v.c, a)
    ensures SendCredit(Effect(v, a)) && Effect(v, a).c.local.window == v.c.local.window
  {
  }

  lemma ParkedKeepsCredit(v: View, buf: bytes, ans: SendAnswer)
    requires SendCredit(v) && v.c.write.state == Created && v.c.write.len <= |buf|
    ensures SendCredit(Effect(v, SendParked(v.c, buf, ans)))
  {
  }

  lemma AdjustIsQuiet(c: Chan, adjustment: u32, force: bool, ans: SendAnswer)
    requires Shaped(c)
    ensures Quiet(c, Adjust(c, adjustment, force, ans))
  {
  }

  lemma PrepareIsQuiet(c: Chan, buflen: nat, ans: SendAnswer)
    requires Shaped(c)
    ensures Quiet(c, ReadPrepare(c, buflen, ans))
  {
    hide Adjust;
    AdjustIsQuiet(c.(read := Jump1), ReadAdjustment(c, buflen), false, ans);
  }

  lemma RefundIsQuiet(c: Chan, ans: SendAnswer)
    requires Shaped(c)
    ensures Quiet(c, RefundAct(c, ans))
  {
    hide Adjust;
    AdjustIsQuiet(c, Wrap32(c.flush.refund), true, ans);
  }

  lemma EndIsQuiet(c: Chan, a: Act, n: nat)
    requires Quiet(c, a)
    ensures Quiet(c, FlushEnd(a, n))
  {
  }

  lemma FlushIsQuiet(c: Chan, f: Flushed, ans: SendAnswer)
    requires Shaped(c)
    ensures Quiet(c, FlushFinish(FlushMark(c, f), ans))
  {
    hide RefundAct;
    var d := FlushMark(c, f);
    var e := Consume(d, d.flush.bytes);
    RefundIsQuiet(e, ans);
    EndIsQuiet(e, RefundAct(e, ans), d.flush.bytes);
  }

  lemma CloseIsQuiet(c: Chan, rc: int, ans: SendAnswer)
    requires Shaped(c)
    ensures Quiet(c, SendClose(c, rc, ans))
  {
  }

  lemma WaitKeepsCredit(k: u32, v: View, arrivals: seq<Message>, n: nat)
    requires n <= |arrivals| && SendCredit(v) && Fits(k, v, arrivals)
    ensures SendCredit(Deliver(k, v, arrivals[..n]))
  {
    FitsPrefix(k, v, arrivals, n);
    DeliverKeepsCredit(k, v, arrivals[..n]);
  }

  lemma MarkKeepsCredit(v: View)
    requires SendCredit(v)
    ensures SendCredit(v.(c := MarkClosed(v.c)))
  {
  }

  lemma CloseKeepsCredit(k: u32, v: View, e: Act, env: Env, n: nat, done: bool)
    requires n <= |env.arrivals| && SendCredit(v) && Quiet(v.c, e) && Fits(k, v, env.arrivals)
    ensures SendCredit(CloseView(k, v, e, env, n, done))
  {
    QuietKeepsCredit(v, e);
    if e.rc != ERROR_EAGAIN {
      var v1 := Effect(v, e);
      var a := SendClose(e.c, e.rc, env.send);
      var v2 := Effect(v1, a);
      CloseIsQuiet(e.c, e.rc, env.send);
      QuietKeepsCredit(v1, a);
      FitsFrame(k, v, v2, env.arrivals);
      WaitKeepsCredit(k, v2, env.arrivals, n);
      MarkKeepsCredit(v2);
      MarkKeepsCredit(Deliver(k, v2, env.arrivals[..n]));
    }
  }

  lemma ShutKeepsCredit(k: u32, v: View, env: Env, n: nat, done: bool)
    requires n <= |env.arrivals| && SendCredit(v) && Fits(k, v, env.arrivals)
    ensures SendCredit(ShutView(k, v, env, n, done))
  {
    if !v.c.local.close {
      CloseKeepsCredit(k, v, EofBeforeClose(v.c, env.eofSend), env, n, done);
    }
  }

  lemma ReadKeepsCredit(k: u32, v: View, a: Act, env: Env, taken: nat)
    requires SendCredit(v) && Quiet(v.c, a) && Fits(k, v, env.arrivals)
    ensures SendCredit(ReadView(k, v, a, env, taken))
  {
    QuietKeepsCredit(v, a);
    if a.rc == 0 {
      FitsFrame(k, v, Effect(v, a), env.arrivals);
      DeliverKeepsCredit(k, Effect(v, a), env.arrivals);
    }
  }

  lemma WriteKeepsCredit(k: u32, v: View, stream: i32, buf: bytes, env: Env)
    requires SendCredit(v) && Fits(k, v, env.arrivals) && v.c.opening.state == Idle
    requires v.c.write.state == Created ==> v.c.write.len <= |buf|
    ensures SendCredit(WriteView(k, v, stream, buf, env))
  {
    if v.c.write.state == Created {
      ParkedKeepsCredit(v, buf, env.send);
    } else if v.c.write.state == Idle && !v.c.local.close && !v.c.local.eof {
      DeliverKeepsCredit(k, v, env.arrivals);
      DeliverFrame(k, v, env.arrivals);
      IdleWriteKeepsCredit(Deliver(k, v, env.arrivals), stream, buf, env.send);
    }
  }

  lemma IdleWriteKeepsCredit(v: View, stream: i32, buf: bytes, ans: SendAnswer)
    requires SendCredit(v) && v.c.opening.state == Idle
    ensures SendCredit(Effect(v, SendParked(Park(v.c, stream, |buf|), buf, ans)))
  {
  }

  lemma SendStartIsQuiet(c: Chan, request: Text, message: Option<bytes>, ans: SendAnswer)
    requires Shaped(c)
    ensures Quiet(c, SendStart(c, request, message, ans))
  {
  }

  lemma AwaitStartIsQuiet(c: Chan, reply: Reply)
    requires Shaped(c)
    ensures Quiet(c, AwaitStart(c, reply))
  {
  }

  lemma StartKeepsCredit(k: u32, v: View, request: Text, message: Option<bytes>, env: Env)
    requires SendCredit(v) && Fits(k, v, env.arrivals)
    ensures SendCredit(StartView(k, v, request, message, env))
  {
    var a := SendStart(v.c, request, message, env.send);
    SendStartIsQuiet(v.c, request, message, env.send);
    QuietKeepsCredit(v, a);
    StartReplyKeepsCredit(Effect(v, a), env.reply);
    FitsFrame(k, v, Effect(v, a), env.arrivals);
    DeliverKeepsCredit(k, Effect(v, a), env.arrivals);
    StartReplyKeepsCredit(Deliver(k, Effect(v, a), env.arrivals), env.reply);
  }

  lemma StartReplyKeepsCredit(v: View, reply: Reply)
    requires SendCredit(v)
    ensures SendCredit(Effect(v, AwaitStart(v.c, reply)))
  {
    AwaitStartIsQuiet(v.c, reply);
    QuietKeepsCredit(v, AwaitStart(v.c, reply));
  }

  lemma SendOpenIsQuiet(c: Chan, extra: bytes, ans: SendAnswer)
    requires Shaped(c)
    ensures Quiet(c, SendOpen(c, extra, ans))
  {
  }

  /** No grant reaches the channel before the confirmation of its opening does. */
  predicate ConfirmedFirst(k: u32, v: View, extra: bytes, env: Env) {
    var a := SendOpen(v.c, extra, env.send);
    a.rc == 0 && IsConfirmed(env.openReply) ==> Deliver(k, Effect(v, a), env.arrivals).granted == 0
  }

  lemma OpenKeepsCredit(k: u32, v: View, extra: bytes, env: Env)
    requires SendCredit(v) && Fits(k, v, env.arrivals) && v.c.opening.state != Idle && ConfirmedFirst(k, v, extra, env)
    ensures SendCredit(OpenView(k, v, extra, env))
  {
    var a := SendOpen(v.c, extra, env.send);
    SendOpenIsQuiet(v.c, extra, env.send);
    QuietKeepsCredit(v, a);
    if a.rc == 0 {
      var v1 := Effect(v, a);
      FitsFrame(k, v, v1, env.arrivals);
      DeliverKeepsCredit(k, v1, env.arrivals);
      DeliverFrame(k, v1, env.arrivals);
      OpenReplyKeepsCredit(Deliver(k, v1, env.arrivals), env.openReply);
    }
  }

  lemma OpenReplyKeepsCredit(v: View, reply: OpenReply)
    requires SendCredit(v) && v.c.opening.state != Idle && (IsConfirmed(reply) ==> v.granted == 0)
    ensures SendCredit(Effect(v, AwaitOpen(v.c, reply)))
  {
    if IsConfirmed(reply) {
      ConfirmKeepsCreditIff(v, reply.packet);
    }
  }

  lemma AdjustKeepsCredit(v: View, adjustment: u32, force: bool, ans: SendAnswer)
    requires SendCredit(v)
    ensures SendCredit(Effect(v, Adjust(v.c, adjustment, force, ans)))
  {
    hide Adjust;
    AdjustIsQuiet(v.c, adjustment, force, ans);
    QuietKeepsCredit(v, Adjust(v.c, adjustment, force, ans));
  }

  lemma FlushKeepsCredit(v: View, f: Flushed, env: Env)
    requires SendCredit(v)
    ensures SendCredit(FlushView(v, f, env))
  {
    FlushIsQuiet(v.c, f, env.send);
    QuietKeepsCredit(v, FlushFinish(FlushMark(v.c, f), env.send));
  }

  lemma EofKeepsCredit(v: View, ans: SendAnswer)
    requires SendCredit(v)
    ensures SendCredit(Effect(v, SendEof(v.c, ans)))
  {
  }

  /** The calls that receive or adjust the receive window, and those that send or end the stream. */
  predicate Receives(call: Call) {
    call.Read? || call.AdjustWindow? || call.FlushStream? || call.Receive?
  }

  lemma ReceivingKeepsCredit(v: View, op: Op, h: Hint)
    requires h.n <= |op.env.arrivals| && SendCredit(v) && Fits(op.k, v, op.env.arrivals) && Receives(op.call)
    ensures SendCredit(OwnStep(v, op, h))
  {
    var k, env := op.k, op.env;
    match op.call
    case Read(_, buflen) =>
      PrepareIsQuiet(v.c, buflen, env.send);
      ReadKeepsCredit(k, v, ReadPrepare(v.c, buflen, env.send), env, h.taken);
    case AdjustWindow(adjustment, force) => AdjustKeepsCredit(v, adjustment, force, env.send);
    case FlushStream(_) => FlushKeepsCredit(v, h.flushed, env);
    case Receive => DeliverKeepsCredit(k, v, env.arrivals);
  }

  /** What the guard of a call says about its own channel. */
  predicate OpenFits(v: View, op: Op) {
    && (op.call.Receive? || (op.call.Open? <==> v.c.opening.state != Idle))
    && (op.call.Open? ==> ConfirmedFirst(op.k, v, op.call.extra, op.env))
  }

  lemma OwnCallKeepsCredit(v: View, op: Op, h: Hint)
    requires op.call.Write? && v.c.write.state == Created ==> v.c.write.len <= |op.call.buf|
    requires h.n <= |op.env.arrivals| && SendCredit(v) && Fits(op.k, v, op.env.arrivals) && OpenFits(v, op)
    ensures SendCredit(OwnStep(v, op, h))
  {
    var k, env := op.k, op.env;
    if Receives(op.call) {
      ReceivingKeepsCredit(v, op, h);
    } else {
      var v' := OwnStep(v, op, h);
      match op.call
      case Write(stream, buf) =>
        assert v' == WriteView(k, v, stream, buf, env);
        WriteKeepsCredit(k, v, stream, buf, env);
      case Merging(on) => QuietKeepsCredit(v, SetMerge(v.c, on));
      case EndOfData => EofKeepsCredit(v, env.eofSend);
      case Shut =>
        assert v' == ShutView(k, v, env, h.n, h.done);
        ShutKeepsCredit(k, v, env, h.n, h.done);
      case Free =>
        assert v' == v || v' == ShutView(k, v, env, h.n, h.done);
        ShutKeepsCredit(k, v, env, h.n, h.done);
      case Start(request, message) =>
        assert v' == StartView(k, v, request, message, env);
        StartKeepsCredit(k, v, request, message, env);
      case Open(extra) =>
        assert v' == OpenView(k, v, extra, env);
        OpenKeepsCredit(k, v, extra, env);
    }
  }

  ghost predicate AllCredit(w: World) {
    Grounded(w) && forall k :: k in w.chans ==> SendCredit(ViewOf(w, k))
  }

  /** Every window adjustment that arrives during a call fits, and none overtakes a confirmation. */
  ghost predicate StepFits(w: World, op: Op)
    requires Callable(w, op)
  {
    && (forall k :: k in w.chans ==> Fits(k, ViewOf(w, k), op.env.arrivals))
    && (op.call.Open? ==> ConfirmedFirst(op.k, ViewOf(w, op.k), op.call.extra, op.env))
  }

  ghost predicate RunFits(w: World, moves: seq<Move>)
    requires Legal(w, moves)
    decreases |moves|
  {
    moves == [] || ((moves[0].Do? ==> StepFits(w, moves[0].op)) && RunFits(Moved(w, moves[0]), moves[1..]))
  }

  lemma StepKeepsCredit(w: World, op: Op, k: u32)
    requires Callable(w, op) && AllCredit(w) && k in Step(w, op).chans && StepFits(w, op)
    ensures SendCredit(ViewOf(Step(w, op), k))
  {
    StepKeepsKeys(w, op, k);
    if k == op.k {
      var h := CallsAreLocal(w, op);
      OwnCallKeepsCredit(ViewOf(w, k), op, h);
    } else {
      var n := CallsDoNotInterfere(w, op, k);
      FitsPrefix(k, ViewOf(w, k), op.env.arrivals, n);
      DeliverKeepsCredit(k, ViewOf(w, k), op.env.arrivals[..n]);
    }
  }

  lemma MoveKeepsCredit(w: World, m: Move)
    requires Possible(w, m) && AllCredit(w) && (m.Do? ==> StepFits(w, m.op))
    ensures AllCredit(Moved(w, m))
  {
    MoveKeepsGrounded(w, m);
    forall k | k in Moved(w, m).chans
      ensures SendCredit(ViewOf(Moved(w, m), k))
    {
      if m.Do? {
        StepKeepsCredit(w, m.op, k);
      } else if k != m.id {
        OpeningSame(w, m, k);
      } else {
        OpeningFresh(w, m);
        FreshCredit(m, w.heard);
        if m.OpenPeer? && m.answer != Accepted {
          assert false;
        }
      }
    }
  }

  lemma FreshCredit(m: Move, heard: seq<Message>)
    requires !m.Do?
    ensures SendCredit(Fresh(m, Replies(m.id, heard)))
  {
    FreshTrace(m, m.id, heard);
  }

  lemma {:induction false} RunKeepsCredit(w: World, moves: seq<Move>)
    requires Legal(w, moves) && AllCredit(w) && RunFits(w, moves)
    ensures AllCredit(Run(w, moves))
    decreases |moves|
  {
    if moves != [] {
      MoveKeepsCredit(w, moves[0]);
      RunKeepsCredit(Moved(w, moves[0]), moves[1..]);
    }
  }

  /** Send credit, section 5.2 of RFC 4254. In every run, from a session without channels, in which the peer
      keeps its windows below 2^32 and confirms a channel before it widens its window, every channel's send
      window equals its initial window plus the adjustments received less the data octets sent. So it
      never underflows, a parked write fits into it, and no channel sends more than it was granted. */
  lemma SendCreditHolds(moves: seq<Move>, k: u32)
    requires Legal(NoChannels(), moves) && RunFits(NoChannels(), moves) && k in Run(NoChannels(), moves).chans
    ensures var v := ViewOf(Run(NoChannels(), moves), k);
            && v.c.local.window == v.c.local.windowInitial + v.granted - |SentData(v.own)|
            && |SentData(v.own)| <= v.c.local.windowInitial + v.granted
            && (v.c.write.state == Created ==> v.c.write.len <= v.c.local.window)
  {
    RunKeepsCredit(NoChannels(), moves);
    assert SendCredit(ViewOf(Run(NoChannels(), moves), k));
  }
}
