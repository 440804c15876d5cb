/**
 Receiving: the octets counted as available are the octets queued, and the receive window less
 that count is the credit the peer still holds. What can break this, a resumed adjustment or flush,
 a window beyond 32 bits or a peer that exceeds its credit, is pinned down by the exact condition
 under which it does not.
 */
module ChannelReceiving {
  import opened Bytes
  import opened PacketQueue
  import opened ChannelSpec
  import opened ChannelTraces
  import opened ChannelSteps
  import opened ChannelRuns
  import opened ChannelTerms

  /** The credit the peer still holds, section 5.2 of RFC 4254: the window it was told, plus what it was granted, less
      what it sent. */
  function PeerCredit(v: View): int {
    Told(v).window + SentAdjusts(v.own) - v.received
  }

  /** The window of a channel whose opening was not sent yet. */
  function Untold(c: Chan): nat {
    if c.opening.state == Created then c.remote.windowInitial else 0
  }

  /** The receive account. Always, the octets available are those queued, and the window less these is, in
      the 32 bits of the field, the peer's credit, what was lost, and what the peer was not told yet. In a `strict`
      account nothing was lost, and the window is wide enough for both without being reduced. */
  ghost predicate Account(v: View, strict: bool) {
    && Shaped(v.c) && Offered(v)
    && v.c.readAvail == v.queued < 0x1_0000_0000
    && v.c.flush.bytes < 0x1_0000_0000
    && Wrap32(v.c.remote.window - v.c.readAvail) == Wrap32(Owed(v))
    && (strict ==> LostOctets(v) == 0 && 0 <= PeerCredit(v) < 0x1_0000_0000 - v.queued - Untold(v.c))
  }

  /** What the window less the octets available stands for. */
  function Owed(v: View): int {
    PeerCredit(v) + LostOctets(v) + Untold(v.c)
  }

  /** So the window is exactly what is queued and what the peer may still send. */
  lemma WindowIsExact(v: View)
    requires Account(v, true)
    ensures v.c.remote.window == v.queued + PeerCredit(v) + Untold(v.c)
  {
    hide Offered;
    WrapKeeps(v.c.remote.window - v.c.readAvail, Owed(v), v.queued);
  }

  /** The test `remote.window_size == read_avail` of the wait for EOF is true exactly when the peer
      has no credit left. */
  lemma WindowFullIffNoCredit(v: View)
    requires Account(v, false)
    ensures v.c.remote.window == v.c.readAvail <==> Wrap32(Owed(v)) == 0
    ensures Account(v, true) ==> (v.c.remote.window == v.c.readAvail <==> PeerCredit(v) + Untold(v.c) == 0)
  {
    hide Offered;
    WrapIsMod(v.c.remote.window - v.c.readAvail, 0x1_0000_0000);
    if Account(v, true) {
      WindowIsExact(v);
    }
  }

  // ---- Receiving keeps the account ----

  lemma WrapKeeps(a: int, b: int, d: int)
    requires Wrap32(a) == Wrap32(b)
    ensures Wrap32(a + d) == Wrap32(b + d)
  {
    var m := 0x1_0000_0000;
    WrapIsMod(a, m);
    WrapIsMod(b, m);
    WrapIsMod(a + d, m);
    WrapIsMod(b + d, m);
  }

  lemma WrapOfWrap(a: int, d: int)
    ensures Wrap32(Wrap32(a) + d) == Wrap32(a + d)
  {
    var m := 0x1_0000_0000;
    WrapIsMod(a, m);
    WrapIsMod(Wrap32(a) + d, m);
    WrapIsMod(a + d, m);
  }

  /** The peer sends no more at once than it was told to, and no more than its credit. */
  predicate Respects(k: u32, v: View, m: Message) {
    IsFor(k, m) && IsDataMessage(m) ==> SizeIn(m) <= Told(v).packetSize && SizeIn(m) <= PeerCredit(v)
  }

  predicate AllRespect(k: u32, v: View, arrivals: seq<Message>)
    decreases |arrivals|
  {
    arrivals == [] || (var front := arrivals[..|arrivals| - 1];
                       AllRespect(k, v, front) && Respects(k, Deliver(k, v, front), arrivals[|arrivals| - 1]))
  }

  lemma DeliverKeepsOffer(k: u32, v: View, m: Message)
    requires Offered(v)
    ensures var v1 := Deliver1(k, v, m);
            Offered(v1) && Told(v1) == Told(v) && Untold(v1.c) == Untold(v.c) && SentAdjusts(v1.own) == SentAdjusts(v.own)
  {
    hide SentAdjusts, Spoken, Offers, OpensAs;
    Deliver1Aside(k, v, m);
  }

  /** Truncation included, a message keeps the account that counts what was lost. It keeps the strict account
      if and only if the peer respects its credit and the packet size it was told; then every octet of it is kept.
      (A channel that has not been announced has granted nothing.) */
  lemma MessageKeepsAccountIff(k: u32, v: View, m: Message)
    requires Account(v, false)
    ensures Account(Deliver1(k, v, m), false)
    ensures Account(v, true) && (v.c.opening.state == Created ==> SentAdjusts(v.own) == 0) ==>
              (Account(Deliver1(k, v, m), true) <==> Respects(k, v, m))
    ensures Account(v, true) && Respects(k, v, m) ==> Account(Deliver1(k, v, m), true)
    ensures Account(v, true) && Respects(k, v, m) && IsFor(k, m) ==> KeptIn(v.c, m) == SizeIn(m)
  {
    hide Offered, Told, SentAdjusts;
    DeliverKeepsOffer(k, v, m);
    ToldMeans(v);
    WrapKeeps(v.c.remote.window - v.c.readAvail, Owed(v), 0 - KeptIn(v.c, m));
    if Account(v, true) {
      WindowIsExact(v);
    }
  }

  lemma {:induction false} DeliverKeepsAccount(k: u32, v: View, arrivals: seq<Message>, strict: bool)
    requires Account(v, strict) && (strict ==> AllRespect(k, v, arrivals))
    ensures Account(Deliver(k, v, arrivals), strict)
    decreases |arrivals|
  {
    if arrivals != [] {
      DeliverKeepsAccount(k, v, arrivals[..|arrivals| - 1], strict);
      MessageKeepsAccountIff(k, Deliver(k, v, arrivals[..|arrivals| - 1]), arrivals[|arrivals| - 1]);
    }
  }

  lemma {:induction false} RespectPrefix(k: u32, v: View, arrivals: seq<Message>, n: nat)
    requires AllRespect(k, v, arrivals) && n <= |arrivals|
    ensures AllRespect(k, v, arrivals[..n])
    decreases |arrivals|
  {
    if n < |arrivals| {
      RespectPrefix(k, v, arrivals[..|arrivals| - 1], n);
      assert arrivals[..|arrivals| - 1][..n] == arrivals[..n];
    } else {
      assert arrivals[..n] == arrivals;
    }
  }

  /** Whether the peer respects its credit depends on the credit and the packet size alone. */
  lemma {:induction false} RespectFrame(k: u32, v: View, v': View, arrivals: seq<Message>)
    requires PeerCredit(v) == PeerCredit(v') && Told(v) == Told(v') && AllRespect(k, v, arrivals)
    ensures AllRespect(k, v', arrivals)
    ensures var u, u' := Deliver(k, v, arrivals), Deliver(k, v', arrivals);
            PeerCredit(u) == PeerCredit(u') && Told(u) == Told(u') && Told(u) == Told(v)
    decreases |arrivals|
  {
    hide SentAdjusts, Spoken, Offers;
    if arrivals != [] {
      var front, last := arrivals[..|arrivals| - 1], arrivals[|arrivals| - 1];
      RespectFrame(k, v, v', front);
      Deliver1Aside(k, Deliver(k, v, front), last);
      Deliver1Aside(k, Deliver(k, v', front), last);
    }
  }

  // ---- Adjusting ----

  /** An adjustment that either starts afresh, or, if it resumes a parked one and is accepted,
      repeats the amount of the parked packet. */
  predicate Faithful(c: Chan, adjustment: u32, ans: SendAnswer) {
    c.adjust.state != Idle && ans == Accepted ==> adjustment == AdjustOf(c.adjust.packet)
  }

  /** An act that changes the receive window by exactly what it grants. */
  predicate Balanced(c: Chan, a: Act) {
    && Shaped(a.c) && SameOffer(c, a)
    && a.c.readAvail == c.readAvail && a.c.flush.bytes == c.flush.bytes
    && a.c.remote.window == Wrap32(c.remote.window + if a.sent.Some? then AdjustOf(a.sent.value) else 0)
  }

  lemma WidenBoth(window: int, avail: int, credit: int, amount: int)
    requires Wrap32(window - avail) == Wrap32(credit)
    ensures Wrap32(Wrap32(window + amount) - avail) == Wrap32(credit + amount)
  {
    WrapOfWrap(window + amount, 0 - avail);
    WrapKeeps(window - avail, credit, amount);
  }

  /** The window that an act leaves needs no more than 32 bits. */
  predicate Roomy(c: Chan, a: Act) {
    a.sent.Some? ==> c.remote.window + AdjustOf(a.sent.value) < 0x1_0000_0000
  }

  lemma BalancedKeepsAccount(v: View, a: Act, strict: bool)
    requires Account(v, strict) && Balanced(v.c, a) && (strict ==> Roomy(v.c, a))
    ensures Account(Effect(v, a), strict)
  {
    hide Announced, Offered, Told, OfferIn;
    var v' := Effect(v, a);
    var amount := if a.sent.Some? then AdjustOf(a.sent.value) else 0;
    OfferStays(v, a);
    assert PeerCredit(v') == PeerCredit(v) + amount by {
      if a.sent.Some? {
        OwnExtends(v.own, a.sent.value);
      }
    }
    WidenBoth(v.c.remote.window, v.c.readAvail, Owed(v), amount);
    if strict {
      WindowIsExact(v);
    }
  }

  lemma FreshAdjustIsBalanced(c: Chan, adjustment: u32, force: bool, ans: SendAnswer)
    requires Shaped(c) && c.adjust.state == Idle
    ensures Balanced(c, Adjust(c, adjustment, force, ans))
  {
    ControlDecodes(c.remote.id, Wrap32(adjustment + c.adjust.queue));
  }

  /** An adjustment is balanced if and only if it is faithful. */
  lemma AdjustBalancedIff(c: Chan, adjustment: u32, force: bool, ans: SendAnswer)
    requires Shaped(c)
    ensures Balanced(c, Adjust(c, adjustment, force, ans)) <==> Faithful(c, adjustment, ans)
  {
    if c.adjust.state == Idle {
      FreshAdjustIsBalanced(c, adjustment, force, ans);
    } else if ans == Accepted {
      assert Adjust(c, adjustment, force, ans).c.remote.window == Wrap32(c.remote.window + adjustment);
      WrapInjective(c.remote.window, adjustment, AdjustOf(c.adjust.packet));
    }
  }

  lemma WrapInjective(w: int, a: u32, b: u32)
    ensures Wrap32(w + a) == Wrap32(w + b) <==> a == b
  {
    WrapIsMod(w + a, 0x1_0000_0000);
    WrapIsMod(w + b, 0x1_0000_0000);
  }

  /** An adjustment reports success exactly when it leaves nothing parked, and otherwise what became of its packet. */
  lemma AdjustReports(c: Chan, adjustment: u32, force: bool, ans: SendAnswer)
    requires Shaped(c)
    ensures var a := Adjust(c, adjustment, force, ans);
            && a.rc == (if a.c.adjust.state == Idle then 0 else if ans == WouldBlock then ERROR_EAGAIN else ERROR_SOCKET_SEND)
            && (a.c.adjust.state != Idle ==> ans != Accepted)
  {
    hide Offered;
  }

  /** A read that could not send its adjustment has it sent by the next read, whatever that one's buffer. */
  lemma ReadResumes(c: Chan, buflen: nat, ans: SendAnswer, later: nat)
    requires Shaped(c) && ReadPrepare(c, buflen, ans).rc != 0
    ensures var d := ReadPrepare(c, buflen, ans).c;
            var b := ReadPrepare(d, later, Accepted);
            b.rc == 0 && b.sent == Some(d.adjust.packet) && b.c.read == Idle && b.c.adjust.state == Idle
  {
    AdjustReports(c.(read := Jump1), ReadAdjustment(c, buflen), false, ans);
  }

  /** Faithfulness is also necessary: an unfaithful adjustment breaks the account. */
  lemma UnfaithfulAdjustBreaksAccount(v: View, adjustment: u32, force: bool, ans: SendAnswer)
    requires Account(v, false) && !Faithful(v.c, adjustment, ans)
    ensures !Account(Effect(v, Adjust(v.c, adjustment, force, ans)), false)
  {
    hide Announced, Offered, Told, OfferIn;
    var parked := AdjustOf(v.c.adjust.packet);
    var a := Adjust(v.c, adjustment, force, ans);
    var v' := Effect(v, a);
    assert SameOffer(v.c, a);
    OfferStays(v, a);
    assert PeerCredit(v') == PeerCredit(v) + parked by {
      OwnExtends(v.own, v.c.adjust.packet);
    }
    WidensApart(v.c.remote.window, v.c.readAvail, Owed(v), adjustment, parked);
  }

  /** An adjustment keeps the account if and only if it is faithful; the strict account, if and only if the
      window it leaves needs no more than 32 bits as well. */
  lemma AdjustKeepsAccountIff(v: View, adjustment: u32, force: bool, ans: SendAnswer, strict: bool)
    requires Account(v, strict)
    ensures var a := Adjust(v.c, adjustment, force, ans);
            Account(Effect(v, a), strict) <==> Faithful(v.c, adjustment, ans) && (strict ==> Roomy(v.c, a))
  {
    var a := Adjust(v.c, adjustment, force, ans);
    AdjustBalancedIff(v.c, adjustment, force, ans);
    if !Faithful(v.c, adjustment, ans) {
      UnfaithfulAdjustBreaksAccount(v, adjustment, force, ans);
    } else if strict ==> Roomy(v.c, a) {
      BalancedKeepsAccount(v, a, strict);
    } else {
      OwnExtends(v.own, a.sent.value);
      WindowIsExact(v);
    }
  }

  lemma WidensApart(window: int, avail: int, credit: int, a: u32, b: u32)
    requires Wrap32(window - avail) == Wrap32(credit) && a != b
    ensures Wrap32(Wrap32(window + a) - avail) != Wrap32(credit + b)
  {
    WidenBoth(window, avail, credit, a);
    WrapInjective(credit, a, b);
  }

  /** A blocked adjustment resumed with the same argument is faithful if and only if nothing was
      queued when it started. */
  lemma ResumedAdjustFaithfulIff(c: Chan, adjustment: u32, force: bool)
    requires c.adjust.state == Idle && Adjust(c, adjustment, force, WouldBlock).rc == ERROR_EAGAIN
    ensures Faithful(Adjust(c, adjustment, force, WouldBlock).c, adjustment, Accepted) <==> c.adjust.queue == 0
  {
    ControlDecodes(c.remote.id, Wrap32(adjustment + c.adjust.queue));
    WrapInjective(adjustment, c.adjust.queue, 0);
  }

  // ---- Reading and flushing ----

  predicate FaithfulRead(c: Chan, buflen: nat, ans: SendAnswer) {
    c.read == Jump1 || WindowTooNarrow(c, buflen) ==> Faithful(c, ReadAdjustment(c, buflen), ans)
  }

  /** Taking `n` octets off the queue keeps the account. */
  lemma ConsumeKeepsAccount(v: View, n: nat, strict: bool)
    requires Account(v, strict) && n <= v.queued
    ensures Account(v.(c := Consume(v.c, n), queued := v.queued - n), strict)
  {
    WrapOfWrap(v.c.remote.window - n, -(v.c.readAvail - n));
  }

  lemma PrepareIsBalanced(c: Chan, buflen: nat, ans: SendAnswer)
    requires Shaped(c) && FaithfulRead(c, buflen, ans)
    ensures Balanced(c, ReadPrepare(c, buflen, ans))
  {
    hide Adjust;
    AdjustBalancedIff(c.(read := Jump1), ReadAdjustment(c, buflen), false, ans);
  }

  lemma PrepareKeepsAccount(v: View, buflen: nat, ans: SendAnswer, strict: bool)
    requires Account(v, strict) && FaithfulRead(v.c, buflen, ans) && (strict ==> Roomy(v.c, ReadPrepare(v.c, buflen, ans)))
    ensures Account(Effect(v, ReadPrepare(v.c, buflen, ans)), strict)
  {
    hide ReadPrepare;
    PrepareIsBalanced(v.c, buflen, ans);
    BalancedKeepsAccount(v, ReadPrepare(v.c, buflen, ans), strict);
  }

  /** What a strict account asks of a read: a window that fits its field, and a peer that respects its credit. */
  predicate StrictRead(k: u32, v: View, a: Act, env: Env) {
    Roomy(v.c, a) && (a.rc == 0 ==> AllRespect(k, Effect(v, a), env.arrivals))
  }

  lemma ReadKeepsAccount(k: u32, v: View, buflen: nat, env: Env, taken: nat, strict: bool)
    requires Account(v, strict) && FaithfulRead(v.c, buflen, env.send)
    requires strict ==> StrictRead(k, v, ReadPrepare(v.c, buflen, env.send), env)
    ensures Account(ReadView(k, v, ReadPrepare(v.c, buflen, env.send), env, taken), strict)
  {
    var a := ReadPrepare(v.c, buflen, env.send);
    PrepareKeepsAccount(v, buflen, env.send, strict);
    if a.rc == 0 {
      var v2 := Deliver(k, Effect(v, a), env.arrivals);
      DeliverKeepsAccount(k, Effect(v, a), env.arrivals, strict);
      if taken <= v2.queued {
        ConsumeKeepsAccount(v2, taken, strict);
      }
    }
  }

  /** The condition under which a flush keeps the account: it is a first entry (or has nothing to
      consume twice), and its refund is a faithful adjustment. */
  predicate FaithfulFlush(c: Chan, f: Flushed, ans: SendAnswer) {
    var d := FlushMark(c, f);
    && (c.flush.state == Idle || c.flush.bytes == 0)
    && (d.flush.refund != 0 ==> Faithful(d, Wrap32(d.flush.refund), ans))
  }

  lemma RefundIsBalanced(c: Chan, ans: SendAnswer)
    requires Shaped(c) && (c.flush.refund != 0 ==> Faithful(c, Wrap32(c.flush.refund), ans))
    ensures Balanced(c, RefundAct(c, ans))
  {
    AdjustBalancedIff(c, Wrap32(c.flush.refund), true, ans);
  }

  lemma FlushFinishIsBalanced(c: Chan, ans: SendAnswer)
    requires Shaped(c) && (c.flush.refund != 0 ==> Faithful(c, Wrap32(c.flush.refund), ans))
    ensures Balanced(Consume(c, c.flush.bytes), FlushFinish(c, ans))
  {
    hide Adjust;
    RefundIsBalanced(Consume(c, c.flush.bytes), ans);
  }

  lemma FlushFinishKeepsAccount(v: View, ans: SendAnswer, strict: bool)
    requires Account(v, strict) && v.c.flush.bytes <= v.queued
    requires v.c.flush.refund != 0 ==> Faithful(v.c, Wrap32(v.c.flush.refund), ans)
    requires strict ==> Roomy(Consume(v.c, v.c.flush.bytes), FlushFinish(v.c, ans))
    ensures Account(Effect(v.(queued := v.queued - v.c.flush.bytes), FlushFinish(v.c, ans)), strict)
  {
    var n, a := v.c.flush.bytes, FlushFinish(v.c, ans);
    var v1 := v.(c := Consume(v.c, n), queued := v.queued - n);
    ConsumeKeepsAccount(v, n, strict);
    FlushFinishIsBalanced(v.c, ans);
    BalancedKeepsAccount(v1, a, strict);
    assert Effect(v1, a) == Effect(v.(queued := v.queued - n), a);
  }

  /** What a strict account asks of a flush: that its refund fits the window. */
  predicate StrictFlush(c: Chan, f: Flushed, ans: SendAnswer) {
    var d := FlushMark(c, f);
    Roomy(Consume(d, d.flush.bytes), FlushFinish(d, ans))
  }

  /** A flush keeps the account if and only if it is a first entry (or has nothing to consume twice) and its refund is
      faithful; the strict account, if and only if the refund fits the window as well. */
  lemma FlushKeepsAccountIff(v: View, f: Flushed, env: Env, strict: bool)
    requires Account(v, strict) && !f.cut && f.discarded <= v.queued
    ensures Account(FlushView(v, f, env), strict) <==>
            FaithfulFlush(v.c, f, env.send) && (strict ==> StrictFlush(v.c, f, env.send))
  {
    if FaithfulFlush(v.c, f, env.send) && (strict ==> StrictFlush(v.c, f, env.send)) {
      FlushKeepsAccount(v, f, env, strict);
    } else if v.c.flush.state != Idle && v.c.flush.bytes != 0 {
      ResumedFlushBreaksAccount(v, f, env);
    } else {
      RefundBreaksAccount(v, f, env, strict);
    }
  }

  lemma FlushKeepsAccount(v: View, f: Flushed, env: Env, strict: bool)
    requires Account(v, strict) && !f.cut && f.discarded <= v.queued && FaithfulFlush(v.c, f, env.send)
    requires strict ==> StrictFlush(v.c, f, env.send)
    ensures Account(FlushView(v, f, env), strict)
  {
    hide FlushFinish, Announced, OpensAs, Wrap, SentAdjusts;
    var d := FlushMark(v.c, f);
    FlushFinishKeepsAccount(v.(c := d), env.send, strict);
    if v.c.flush.state == Idle {
      assert FlushView(v, f, env) == Effect(v.(queued := v.queued - f.discarded), FlushFinish(d, env.send));
    } else {
      assert FlushView(v, f, env) == Effect(v, FlushFinish(d, env.send));
    }
  }

  /** A flush whose refund is an unfaithful adjustment, or too wide. */
  lemma RefundBreaksAccount(v: View, f: Flushed, env: Env, strict: bool)
    requires Account(v, strict) && !f.cut && f.discarded <= v.queued
    requires v.c.flush.state == Idle || v.c.flush.bytes == 0
    requires !(FaithfulFlush(v.c, f, env.send) && (strict ==> StrictFlush(v.c, f, env.send)))
    ensures !Account(FlushView(v, f, env), strict)
  {
    hide RefundAct, Announced, OpensAs, Wrap, SentAdjusts;
    var d := FlushMark(v.c, f);
    var n := d.flush.bytes;
    var v1 := v.(c := Consume(d, n), queued := v.queued - n);
    ConsumeKeepsAccount(v.(c := d), n, strict);
    RefundKeepsAccountIff(v1, env.send, strict);
    EndKeepsAccountIff(v1, RefundAct(v1.c, env.send), n, strict);
    assert FlushView(v, f, env) == Effect(v1, FlushFinish(d, env.send));
  }

  lemma RefundKeepsAccountIff(v: View, ans: SendAnswer, strict: bool)
    requires Account(v, strict)
    ensures Account(Effect(v, RefundAct(v.c, ans)), strict) <==>
            && (v.c.flush.refund != 0 ==> Faithful(v.c, Wrap32(v.c.flush.refund), ans))
            && (strict ==> Roomy(v.c, RefundAct(v.c, ans)))
  {
    hide Adjust, Faithful;
    if v.c.flush.refund != 0 {
      AdjustKeepsAccountIff(v, Wrap32(v.c.flush.refund), true, ans, strict);
    } else {
      assert Effect(v, RefundAct(v.c, ans)) == v;
    }
  }

  lemma EndKeepsAccountIff(v: View, a: Act, n: nat, strict: bool)
    ensures Account(Effect(v, FlushEnd(a, n)), strict) <==> Account(Effect(v, a), strict)
  {
    hide SentAdjusts, Wrap;
  }

  /** A flush resumed after EAGAIN that has something to consume twice always breaks the account. */
  lemma ResumedFlushBreaksAccount(v: View, f: Flushed, env: Env)
    requires Account(v, false) && v.c.flush.state != Idle && v.c.flush.bytes > 0
    ensures !Account(FlushView(v, f, env), false)
  {
    var d := Consume(v.c, v.c.flush.bytes);
    var a := FlushFinish(v.c, env.send);
    assert a.c.readAvail == d.readAvail;
    WrapIsMod(v.c.readAvail - v.c.flush.bytes, 0x1_0000_0000_0000_0000);
    assert d.readAvail != v.queued;
  }

  /** How far the read offsets of the packets a flush discards exceed 13 in sum. */
  function HeadExcess(id: u32, stream: i32, q: Queue): int {
    if q == [] || CutShort(id, q[0]) then 0
    else (if Flushes(id, stream, q[0]) then q[0].head - 13 else 0) + HeadExcess(id, stream, q[1..])
  }

  /** The refund of a flush is what it discarded, plus the head excess, in 64-bit arithmetic: it is
      right exactly when the excess is a multiple of 2^64, so four short for each unread plain packet. */
  lemma {:induction false} FlushRefund(id: u32, stream: i32, q: Queue)
    ensures var f := Flush(id, stream, q); f.refund == Wrap64(f.discarded + HeadExcess(id, stream, q))
  {
    if q != [] && !CutShort(id, q[0]) {
      FlushRefund(id, stream, q[1..]);
      var f := Flush(id, stream, q[1..]);
      if Flushes(id, stream, q[0]) {
        Wrap64OfWrap(f.discarded + HeadExcess(id, stream, q[1..]), q[0].len - 13);
      }
    }
  }

  // ---- Calls that do not concern receiving ----

  /** An act that neither touches the receive side nor grants anything. */
  predicate Aside(c: Chan, a: Act) {
    && Shaped(a.c) && SameOffer(c, a)
    && a.c.remote == c.remote.(id := a.c.remote.id) && a.c.readAvail == c.readAvail && a.c.flush == c.flush
    && (a.sent.Some? ==> |a.sent.value| > 0 && MSG_CHANNEL_DATA <= a.sent.value[0] <= MSG_CHANNEL_REQUEST)
  }

  lemma AsideKeepsAccount(v: View, a: Act, strict: bool)
    requires Account(v, strict) && Aside(v.c, a)
    ensures Account(Effect(v, a), strict) && PeerCredit(Effect(v, a)) == PeerCredit(v) && Told(Effect(v, a)) == Told(v)
  {
    hide Announced, Offered, Told, OfferIn, Wrap, SentAdjusts, AdjustOf;
    OfferStays(v, a);
    if a.sent.Some? {
      GrantsNothing(v.own, a.sent.value);
    }
  }

  lemma GrantsNothing(own: seq<bytes>, data: bytes)
    requires |data| > 0 && data[0] != MSG_CHANNEL_WINDOW_ADJUST
    ensures SentAdjusts(own + [data]) == SentAdjusts(own)
  {
  }

  /** An act aside, and then messages. */
  lemma AsideThenDeliver(k: u32, v: View, a: Act, arrivals: seq<Message>, n: nat, strict: bool)
    requires n <= |arrivals| && Account(v, strict) && Aside(v.c, a) && (strict ==> AllRespect(k, v, arrivals))
    ensures Account(Effect(v, a), strict) && Account(Deliver(k, Effect(v, a), arrivals[..n]), strict)
    ensures strict ==> AllRespect(k, Effect(v, a), arrivals)
  {
    AsideKeepsAccount(v, a, strict);
    if strict {
      RespectFrame(k, v, Effect(v, a), arrivals);
      RespectPrefix(k, Effect(v, a), arrivals, n);
    }
    DeliverKeepsAccount(k, Effect(v, a), arrivals[..n], strict);
  }

  lemma WriteKeepsAccount(k: u32, v: View, stream: i32, buf: bytes, env: Env, strict: bool)
    requires Account(v, strict) && (v.c.write.state == Created ==> v.c.write.len <= |buf|)
    requires strict ==> AllRespect(k, v, env.arrivals)
    ensures Account(WriteView(k, v, stream, buf, env), strict)
  {
    hide Account, SendParked, Park;
    if v.c.write.state == Created {
      AccountIsShaped(v, strict);
      ParkedIsAside(v.c, buf, env.send);
      AsideKeepsAccount(v, SendParked(v.c, buf, env.send), strict);
    } else if v.c.write.state == Idle && !v.c.local.close && !v.c.local.eof {
      DeliverKeepsAccount(k, v, env.arrivals, strict);
      IdleWriteKeepsAccount(Deliver(k, v, env.arrivals), stream, buf, env.send, strict);
    }
  }

  lemma IdleWriteKeepsAccount(v: View, stream: i32, buf: bytes, ans: SendAnswer, strict: bool)
    requires Account(v, strict)
    ensures Account(Effect(v, SendParked(Park(v.c, stream, |buf|), buf, ans)), strict)
  {
    hide SendParked, Offered, Told;
    var v1 := v.(c := Park(v.c, stream, |buf|));
    ParkKeepsOffer(v, stream, |buf|);
    assert Account(v1, strict);
    ParkedIsAside(v1.c, buf, ans);
    AsideKeepsAccount(v1, SendParked(v1.c, buf, ans), strict);
    assert Effect(v, SendParked(v1.c, buf, ans)) == Effect(v1, SendParked(v1.c, buf, ans));
  }

  lemma ParkKeepsOffer(v: View, stream: i32, buflen: nat)
    requires Offered(v)
    ensures var v1 := v.(c := Park(v.c, stream, buflen)); Offered(v1) && Told(v1) == Told(v)
  {
    hide Announced, OpensAs;
  }

  lemma AccountIsShaped(v: View, strict: bool)
    requires Account(v, strict)
    ensures Shaped(v.c)
  {
  }

  lemma ParkedIsAside(c: Chan, buf: bytes, ans: SendAnswer)
    requires Shaped(c) && c.write.state == Created && c.write.len <= |buf|
    ensures Aside(c, SendParked(c, buf, ans))
  {
  }

  lemma ShutKeepsAccount(k: u32, v: View, env: Env, n: nat, done: bool, strict: bool)
    requires n <= |env.arrivals| && Account(v, strict) && (strict ==> AllRespect(k, v, env.arrivals))
    ensures Account(ShutView(k, v, env, n, done), strict)
  {
    if !v.c.local.close {
      var e := EofBeforeClose(v.c, env.eofSend);
      AsideThenDeliver(k, v, e, env.arrivals, n, strict);
      if e.rc != ERROR_EAGAIN {
        CloseKeepsAccount(k, v, e, env, n, done, strict);
      }
    }
  }

  lemma CloseIsAside(c: Chan, rc: int, ans: SendAnswer)
    requires Shaped(c)
    ensures Aside(c, SendClose(c, rc, ans))
  {
  }

  lemma MarkKeepsAccount(v: View, strict: bool)
    requires Account(v, strict)
    ensures Account(v.(c := MarkClosed(v.c)), strict)
  {
  }

  lemma CloseKeepsAccount(k: u32, v: View, e: Act, env: Env, n: nat, done: bool, strict: bool)
    requires n <= |env.arrivals| && Account(Effect(v, e), strict) && e.rc != ERROR_EAGAIN
    requires strict ==> AllRespect(k, Effect(v, e), env.arrivals)
    ensures Account(CloseView(k, v, e, env, n, done), strict)
  {
    var v1 := Effect(v, e);
    var a := SendClose(e.c, e.rc, env.send);
    CloseIsAside(e.c, e.rc, env.send);
    AsideThenDeliver(k, v1, a, env.arrivals, n, strict);
    MarkKeepsAccount(Effect(v1, a), strict);
    MarkKeepsAccount(Deliver(k, Effect(v1, a), env.arrivals[..n]), strict);
  }

  lemma SendStartIsAside(c: Chan, request: Text, message: Option<bytes>, ans: SendAnswer)
    requires Shaped(c)
    ensures Aside(c, SendStart(c, request, message, ans))
  {
  }

  lemma StartKeepsAccount(k: u32, v: View, request: Text, message: Option<bytes>, env: Env, strict: bool)
    requires Account(v, strict) && (strict ==> AllRespect(k, v, env.arrivals))
    ensures Account(StartView(k, v, request, message, env), strict)
  {
    var a := SendStart(v.c, request, message, env.send);
    SendStartIsAside(v.c, request, message, env.send);
    AsideThenDeliver(k, v, a, env.arrivals, |env.arrivals|, strict);
    assert env.arrivals[..|env.arrivals|] == env.arrivals;
    StartReplyKeepsAccount(Effect(v, a), env.reply, strict);
    StartReplyKeepsAccount(Deliver(k, Effect(v, a), env.arrivals), env.reply, strict);
  }

  lemma StartReplyKeepsAccount(v: View, reply: Reply, strict: bool)
    requires Account(v, strict)
    ensures Account(Effect(v, AwaitStart(v.c, reply)), strict)
  {
    AsideKeepsAccount(v, AwaitStart(v.c, reply), strict);
  }

  lemma SendOpenKeepsAccount(v: View, extra: bytes, ans: SendAnswer, strict: bool)
    requires Account(v, strict)
    ensures Account(Effect(v, SendOpen(v.c, extra, ans)), strict)
  {
    hide Account;
    var a := SendOpen(v.c, extra, ans);
    if a.sent.Some? {
      OpeningSentKeepsAccount(v, extra, strict);
    } else {
      assert Effect(v, a) == v;
    }
  }

  lemma OpeningSentKeepsAccount(v: View, extra: bytes, strict: bool)
    requires Account(v, strict) && v.c.opening.state == Created
    ensures Account(Effect(v, SendOpen(v.c, extra, Accepted)), strict)
  {
    hide Announced, OfferIn, OpensAs, Wrap, SentData, Requests, Kinds, Spoken, Answers;
    var p := v.c.opening.packet + extra;
    OpeningOffers(v, extra);
    AnnouncedExtends(v.own, p);
    OwnExtends(v.own, p);
  }

  lemma OpenReplyKeepsAccount(v: View, reply: OpenReply, strict: bool)
    requires Account(v, strict) && v.c.opening.state != Created
    ensures Account(Effect(v, AwaitOpen(v.c, reply)), strict)
  {
    hide Announced, OpensAs, Wrap;
  }

  lemma OpenKeepsAccount(k: u32, v: View, extra: bytes, env: Env, strict: bool)
    requires Account(v, strict) && (strict ==> AllRespect(k, Effect(v, SendOpen(v.c, extra, env.send)), env.arrivals))
    ensures Account(OpenView(k, v, extra, env), strict)
  {
    hide Account, AwaitOpen;
    var a := SendOpen(v.c, extra, env.send);
    SendOpenKeepsAccount(v, extra, env.send, strict);
    if a.rc == 0 {
      DeliverKeepsAccount(k, Effect(v, a), env.arrivals, strict);
      DeliverFrame(k, Effect(v, a), env.arrivals);
      OpenReplyKeepsAccount(Deliver(k, Effect(v, a), env.arrivals), env.openReply, strict);
    }
  }

  // ---- Runs ----

  /** The guard of a call: adjustments are faithful, and flushes are first entries. */
  predicate FaithfulCall(c: Chan, op: Op, h: Hint) {
    match op.call
    case Read(_, buflen) => FaithfulRead(c, buflen, op.env.send)
    case AdjustWindow(adjustment, _) => Faithful(c, adjustment, op.env.send)
    case FlushStream(_) => FaithfulFlush(c, h.flushed, op.env.send)
    case _ => true
  }

  /** What a strict account asks of a call as well: windows of 32 bits, and a peer that respects its credit. */
  predicate StrictCall(v: View, op: Op, h: Hint) {
    match op.call
    case Read(_, buflen) => StrictRead(op.k, v, ReadPrepare(v.c, buflen, op.env.send), op.env)
    case AdjustWindow(adjustment, force) => Roomy(v.c, Adjust(v.c, adjustment, force, op.env.send))
    case FlushStream(_) => StrictFlush(v.c, h.flushed, op.env.send)
    case Open(extra) => AllRespect(op.k, Effect(v, SendOpen(v.c, extra, op.env.send)), op.env.arrivals)
    case _ => AllRespect(op.k, v, op.env.arrivals)
  }

  lemma ReceivingKeepsAccount(v: View, op: Op, h: Hint, strict: bool)
    requires op.call.Read? || op.call.AdjustWindow? || op.call.FlushStream? || op.call.Receive?
    requires h.n <= |op.env.arrivals| && Account(v, strict) && FaithfulCall(v.c, op, h) && (strict ==> StrictCall(v, op, h))
    requires op.call.FlushStream? ==> !h.flushed.cut && h.flushed.discarded <= v.queued
    ensures Account(OwnStep(v, op, h), strict)
  {
    var k, env := op.k, op.env;
    match op.call
    case Read(_, buflen) => ReadKeepsAccount(k, v, buflen, env, h.taken, strict);
    case AdjustWindow(adjustment, force) => AdjustKeepsAccountIff(v, adjustment, force, env.send, strict);
    case FlushStream(_) => FlushKeepsAccount(v, h.flushed, env, strict);
    case Receive => DeliverKeepsAccount(k, v, env.arrivals, strict);
  }

  lemma EofKeepsAccount(v: View, ans: SendAnswer, strict: bool)
    requires Account(v, strict)
    ensures Account(Effect(v, SendEof(v.c, ans)), strict)
  {
    AsideKeepsAccount(v, SendEof(v.c, ans), strict);
  }

  lemma OwnCallKeepsAccount(v: View, op: Op, h: Hint, strict: bool)
    requires op.call.Write? && v.c.write.state == Created ==> v.c.write.len <= |op.call.buf|
    requires h.n <= |op.env.arrivals| && Account(v, strict) && FaithfulCall(v.c, op, h) && (strict ==> StrictCall(v, op, h))
    requires op.call.FlushStream? ==> !h.flushed.cut && h.flushed.discarded <= v.queued
    ensures Account(OwnStep(v, op, h), strict)
  {
    var k, env := op.k, op.env;
    var v' := OwnStep(v, op, h);
    match op.call
    case Write(stream, buf) =>
      assert v' == WriteView(k, v, stream, buf, env);
      WriteKeepsAccount(k, v, stream, buf, env, strict);
    case Merging(on) =>
      assert v' == Effect(v, SetMerge(v.c, on));
      AsideKeepsAccount(v, SetMerge(v.c, on), strict);
    case EndOfData =>
      assert v' == Effect(v, SendEof(v.c, env.eofSend));
      EofKeepsAccount(v, env.eofSend, strict);
    case Shut =>
      assert v' == ShutView(k, v, env, h.n, h.done);
      ShutKeepsAccount(k, v, env, h.n, h.done, strict);
    case Free =>
      assert v' == v || v' == ShutView(k, v, env, h.n, h.done);
      ShutKeepsAccount(k, v, env, h.n, h.done, strict);
    case Start(request, message) =>
      assert v' == StartView(k, v, request, message, env);
      StartKeepsAccount(k, v, request, message, env, strict);
    case Open(extra) =>
      assert v' == OpenView(k, v, extra, env);
      OpenKeepsAccount(k, v, extra, env, strict);
    case _ => ReceivingKeepsAccount(v, op, h, strict);
  }

  ghost predicate AllAccount(w: World, strict: bool) {
    Grounded(w) && AllHold(LongEnough(), w.packets) && forall k :: k in w.chans ==> Account(ViewOf(w, k), strict)
  }

  /** What a flush of this call's stream would find. */
  function HintOf(w: World, op: Op): Hint {
    NoHint().(flushed := if op.call.FlushStream? then Flush(op.k, op.call.which, w.packets) else Flushed([], 0, 0, false))
  }

  ghost predicate StepFaithful(w: World, op: Op, strict: bool)
    requires Callable(w, op)
  {
    && FaithfulCall(w.chans[op.k], op, HintOf(w, op))
    && (strict ==> StrictCall(ViewOf(w, op.k), op, HintOf(w, op)))
    && (strict ==> forall j :: j in w.chans && j != op.k ==> AllRespect(j, ViewOf(w, j), op.env.arrivals))
  }

  lemma StepKeepsAccount(w: World, op: Op, k: u32, strict: bool)
    requires Callable(w, op) && AllAccount(w, strict) && k in Step(w, op).chans && StepFaithful(w, op, strict)
    ensures Account(ViewOf(Step(w, op), k), strict)
  {
    StepKeepsKeys(w, op, k);
    var v := ViewOf(w, k);
    if k == op.k {
      var h := CallsAreLocal(w, op);
      if op.call.FlushStream? {
        FlushNotCut(k, op.call.which, w.packets);
      }
      OwnCallKeepsAccount(v, op, h, strict);
    } else {
      var n := CallsDoNotInterfere(w, op, k);
      if strict {
        RespectPrefix(k, v, op.env.arrivals, n);
      }
      DeliverKeepsAccount(k, v, op.env.arrivals[..n], strict);
    }
  }

  lemma FreshAccount(m: Move, heard: seq<Message>)
    requires !m.Do?
    ensures Account(Fresh(m, Replies(m.id, heard)), true)
  {
    hide Offered, Told;
    FreshTrace(m, m.id, heard);
    FreshOffer(m, heard);
  }

  lemma OpeningKeepsAccount(w: World, m: Move, k: u32, strict: bool)
    requires Possible(w, m) && !m.Do? && AllAccount(w, strict) && k in Moved(w, m).chans
    ensures Account(ViewOf(Moved(w, m), k), strict)
  {
    if k != m.id {
      OpeningSame(w, m, k);
    } else {
      OpeningFresh(w, m);
      FreshAccount(m, w.heard);
    }
  }

  lemma MoveKeepsShares(w: World, m: Move, k: u32, strict: bool)
    requires Possible(w, m) && AllAccount(w, strict) && (m.Do? ==> StepFaithful(w, m.op, strict)) && k in Moved(w, m).chans
    ensures Account(ViewOf(Moved(w, m), k), strict)
  {
    if m.Do? {
      StepKeepsAccount(w, m.op, k, strict);
    } else {
      OpeningKeepsAccount(w, m, k, strict);
    }
  }

  lemma MoveKeepsLong(w: World, m: Move)
    requires Possible(w, m) && AllHold(LongEnough(), w.packets)
    ensures AllHold(LongEnough(), Moved(w, m).packets)
  {
    if m.Do? {
      StepKeepsAll(LongEnough(), w, m.op);
    }
  }

  lemma MoveKeepsAccount(w: World, m: Move, strict: bool)
    requires Possible(w, m) && AllAccount(w, strict) && (m.Do? ==> StepFaithful(w, m.op, strict))
    ensures AllAccount(Moved(w, m), strict)
  {
    MoveKeepsGrounded(w, m);
    MoveKeepsLong(w, m);
    var w1 := Moved(w, m);
    forall k | k in w1.chans
      ensures Account(ViewOf(w1, k), strict)
    {
      MoveKeepsShares(w, m, k, strict);
    }
  }

  ghost predicate RunFaithful(w: World, moves: seq<Move>, strict: bool)
    requires Legal(w, moves)
    decreases |moves|
  {
    moves == [] || ((moves[0].Do? ==> StepFaithful(w, moves[0].op, strict)) && RunFaithful(Moved(w, moves[0]), moves[1..], strict))
  }

  lemma {:induction false} RunKeepsAccount(w: World, moves: seq<Move>, strict: bool)
    requires Legal(w, moves) && AllAccount(w, strict) && RunFaithful(w, moves, strict)
    ensures AllAccount(Run(w, moves), strict)
    decreases |moves|
  {
    if moves != [] {
      MoveKeepsAccount(w, moves[0], strict);
      RunKeepsAccount(Moved(w, moves[0]), moves[1..], strict);
    }
  }

  /** Receive accounting. In every run, from a session without channels, whose resumed adjustments repeat their
      amounts and whose flushes are not resumed, for every channel: the count of available octets is what the
      queue holds for it; the channel has announced nothing, or exactly once its id, its window and its packet size;
      and then the receive window less the octets available is the credit that the peer holds by what it was sent, plus
      what was lost of its data, in the 32 bits of the field. */
  lemma AccountHolds(moves: seq<Move>, k: u32)
    requires Legal(NoChannels(), moves) && RunFaithful(NoChannels(), moves, false) && k in Run(NoChannels(), moves).chans
    ensures var v := ViewOf(Run(NoChannels(), moves), k);
            && v.c.readAvail == v.queued
            && if v.c.opening.state == Created then Announced(v.own) == []
               else
                 && Announced(v.own) == [Terms(v.c.local.id, v.c.remote.windowInitial, v.c.remote.packetSize)]
                 && Wrap32(v.c.remote.window - v.c.readAvail) == Wrap32(PeerCredit(v) + LostOctets(v))
  {
    hide Legal, Run, RunFaithful, Shaped, Announced;
    RunKeepsAccount(NoChannels(), moves, false);
    assert Account(ViewOf(Run(NoChannels(), moves), k), false);
  }

  /** A peer that never exceeds its credit or the packet size, by what it was told and granted, loses no octet. In every
      such run whose windows fit 32 bits, every octet the peer sent was kept, and the window of a channel that was
      announced is exactly what is queued plus the credit the peer still holds, and full exactly when there is none. */
  lemma NothingIsLost(moves: seq<Move>, k: u32)
    requires Legal(NoChannels(), moves) && RunFaithful(NoChannels(), moves, true) && k in Run(NoChannels(), moves).chans
    ensures var v := ViewOf(Run(NoChannels(), moves), k);
            && v.kept == v.received && v.c.readAvail == v.queued && PeerCredit(v) >= 0
            && (v.c.opening.state != Created ==>
                  && v.c.remote.window == v.queued + PeerCredit(v)
                  && (v.c.remote.window == v.c.readAvail <==> PeerCredit(v) == 0))
  {
    hide Legal, Run, RunFaithful, Shaped, Offered;
    RunKeepsAccount(NoChannels(), moves, true);
    assert Account(ViewOf(Run(NoChannels(), moves), k), true);
    WindowIsExact(ViewOf(Run(NoChannels(), moves), k));
  }

  // ---- Queued extended data always holds its type code ----

  function LongEnough(): Pick {
    (p: Packet) => p.data[0] == MSG_CHANNEL_EXTENDED_DATA ==> p.len >= 9
  }

  lemma {:induction false} FlushNotCut(id: u32, stream: i32, q: Queue)
    requires AllHold(LongEnough(), q)
    ensures !Flush(id, stream, q).cut
  {
    if q != [] {
      assert LongEnough()(q[0]);
      FlushNotCut(id, stream, q[1..]);
    }
  }

  // ---- Conservation of adjustments ----

  datatype Request = Request(adjustment: u32, force: bool)

  /** A sequence of adjustments, all of them accepted by the transport at once. */
  function AdjustAll(v: View, requests: seq<Request>): View {
    if requests == [] then v
    else
      var front := AdjustAll(v, requests[..|requests| - 1]);
      var last := requests[|requests| - 1];
      Effect(front, Adjust(front.c, last.adjustment, last.force, Accepted))
  }

  function Requested(requests: seq<Request>): nat {
    if requests == [] then 0 else Requested(requests[..|requests| - 1]) + requests[|requests| - 1].adjustment
  }

  /** What is granted on the wire plus what waits in the queue. */
  function Adjusted(v: View): nat {
    SentAdjusts(v.own) + v.c.adjust.queue
  }

  predicate AdjustIdle(v: View) {
    v.c.adjust.state == Idle && v.c.adjust.queue < 1024
  }

  lemma AdjustIsCounted(own: seq<bytes>, recipient: u32, amount: u32)
    ensures SentAdjusts(own + [AdjustBytes(recipient, amount)]) == SentAdjusts(own) + amount
  {
    hide Decode, SentData, Requests, Kinds, Spoken, Answers;
    ControlDecodes(recipient, amount);
    OwnExtends(own, AdjustBytes(recipient, amount));
  }

  /** One accepted adjustment, put in the queue or sent together with what was queued. */
  lemma OneAdjustMoves(v: View, r: Request)
    requires AdjustIdle(v)
    ensures var v' := Effect(v, Adjust(v.c, r.adjustment, r.force, Accepted));
            && AdjustIdle(v')
            && Adjusted(v') == SentAdjusts(v.own) + Wrap32(r.adjustment + v.c.adjust.queue)
  {
    hide AdjustBytes, SentAdjusts;
    AdjustIsCounted(v.own, v.c.remote.id, Wrap32(r.adjustment + v.c.adjust.queue));
  }

  lemma OneAdjustConserved(v: View, r: Request)
    requires AdjustIdle(v)
    ensures var v' := Effect(v, Adjust(v.c, r.adjustment, r.force, Accepted));
            && AdjustIdle(v')
            && Wrap32(Adjusted(v')) == Wrap32(Adjusted(v) + r.adjustment)
            && (Modest(r) ==> Adjusted(v') == Adjusted(v) + r.adjustment)
  {
    hide Adjust, SentAdjusts;
    OneAdjustMoves(v, r);
    WrapOfWrap(r.adjustment + v.c.adjust.queue, SentAdjusts(v.own));
  }

  predicate Modest(r: Request) {
    r.adjustment <= 0x1_0000_0000 - 1024
  }

  predicate AllModest(requests: seq<Request>) {
    requests == [] || (AllModest(requests[..|requests| - 1]) && Modest(requests[|requests| - 1]))
  }

  /** Window-adjust conservation. What is granted on the wire plus what is queued equals what was
      requested, modulo 2^32 always, and exactly when no request comes within 1024 of 2^32; and the
      queue stays below 1024. */
  lemma {:induction false} AdjustmentsConserved(v: View, requests: seq<Request>)
    requires AdjustIdle(v)
    ensures AdjustIdle(AdjustAll(v, requests))
    ensures Wrap32(Adjusted(AdjustAll(v, requests))) == Wrap32(Adjusted(v) + Requested(requests))
    ensures AllModest(requests) ==> Adjusted(AdjustAll(v, requests)) == Adjusted(v) + Requested(requests)
  {
    if requests != [] {
      var front, last := requests[..|requests| - 1], requests[|requests| - 1];
      var v1 := AdjustAll(v, front);
      AdjustmentsConserved(v, front);
      OneAdjustConserved(v1, last);
      WrapKeeps(Adjusted(v1), Adjusted(v) + Requested(front), last.adjustment);
      assert AdjustAll(v, requests) == Effect(v1, Adjust(v1.c, last.adjustment, last.force, Accepted));
    }
  }

  // ---- Adjustments that are tried again ----

  /** An adjustment tried with one answer after the other, always for the same amount. */
  function Retried(v: View, r: Request, tries: seq<SendAnswer>): View {
    if tries == [] then v
    else
      var v1 := Retried(v, r, tries[..|tries| - 1]);
      Effect(v1, Adjust(v1.c, r.adjustment, r.force, tries[|tries| - 1]))
  }

  /** What failed tries leave in the queue: the last one counts, for the whole amount if it was the first try. */
  function Requeued(r: Request, total: u32, tries: seq<SendAnswer>): u32 {
    if tries == [] then 0
    else if tries[|tries| - 1].Failed? then if |tries| == 1 then total else r.adjustment
    else Requeued(r, total, tries[..|tries| - 1])
  }

  predicate NoneAccepted(tries: seq<SendAnswer>) {
    forall i :: 0 <= i < |tries| ==> tries[i] != Accepted
  }

  /** An adjustment that is not just queued is parked by its first try, and stays parked. */
  lemma {:induction false} RetriedIsParked(v: View, r: Request, tries: seq<SendAnswer>)
    requires AdjustIdle(v) && Adjust(v.c, r.adjustment, r.force, WouldBlock).rc == ERROR_EAGAIN
    requires tries != [] && NoneAccepted(tries)
    ensures var total := Wrap32(r.adjustment + v.c.adjust.queue);
            Retried(v, r, tries) == v.(c := v.c.(adjust := Adjusting(Created, Requeued(r, total, tries), AdjustBytes(v.c.remote.id, total))))
  {
    var front := tries[..|tries| - 1];
    if front != [] {
      RetriedIsParked(v, r, front);
    } else {
      assert Retried(v, r, front) == v;
    }
  }

  /** The parked adjustment goes out when a try is accepted. */
  lemma LastTry(v: View, r: Request, tries: seq<SendAnswer>)
    requires AdjustIdle(v) && Adjust(v.c, r.adjustment, r.force, WouldBlock).rc == ERROR_EAGAIN && NoneAccepted(tries)
    ensures var total := Wrap32(r.adjustment + v.c.adjust.queue);
            var v' := Retried(v, r, tries + [Accepted]);
            && v'.own == v.own + [AdjustBytes(v.c.remote.id, total)] && v'.c.adjust.state == Idle
            && v'.c.adjust.queue == Requeued(r, total, tries)
  {
    hide AdjustBytes, NoneAccepted;
    assert (tries + [Accepted])[..|tries|] == tries;
    if tries != [] {
      RetriedIsParked(v, r, tries);
    }
  }

  /** Tried until it is accepted, an adjustment is granted as it was asked for, if and only if no failed try has
      left it in the queue as well; what a failed try left is granted once more. */
  lemma RetriedAdjustIff(v: View, r: Request, tries: seq<SendAnswer>)
    requires AdjustIdle(v) && Adjust(v.c, r.adjustment, r.force, WouldBlock).rc == ERROR_EAGAIN && NoneAccepted(tries)
    ensures var total := Wrap32(r.adjustment + v.c.adjust.queue);
            var v' := Retried(v, r, tries + [Accepted]);
            && Adjusted(v') == SentAdjusts(v.own) + total + Requeued(r, total, tries)
            && Wrap32(Adjusted(v')) == Wrap32(Adjusted(v) + r.adjustment + Requeued(r, total, tries))
            && (Wrap32(Adjusted(v')) == Wrap32(Adjusted(v) + r.adjustment) <==> Requeued(r, total, tries) == 0)
  {
    hide Adjust, Retried, Requeued, NoneAccepted, SentAdjusts;
    var total := Wrap32(r.adjustment + v.c.adjust.queue);
    LastTry(v, r, tries);
    AdjustIsCounted(v.own, v.c.remote.id, total);
    WrapOfWrap(r.adjustment + v.c.adjust.queue, SentAdjusts(v.own) + Requeued(r, total, tries));
    WrapInjective(Adjusted(v) + r.adjustment, Requeued(r, total, tries), 0);
  }

  /** The window that an accepted adjustment leaves, whether it is sent or only queued. */
  function WidenedBy(window: u32, total: u32): u32 {
    if total < MINADJUST then window else Wrap32(window + total)
  }

  lemma WidensIff(initial: u32, window: u32, queue: nat, buflen: nat)
    requires queue < 1024 && window < initial / 4 * 3 + buflen
    ensures var wanted := Wrap32(initial + buflen - window);
            var total := Wrap32((if wanted < MINADJUST then MINADJUST else wanted) + queue);
            WidenedBy(window, total) >= initial / 4 * 3 + buflen <==>
            initial + buflen + queue < 0x1_0000_0000 && window + 1024 + queue < 0x1_0000_0000
  {
    var m := 0x1_0000_0000;
    var wanted := Wrap32(initial + buflen - window);
    var adjustment := if wanted < MINADJUST then MINADJUST else wanted;
    WrapIsMod(initial + buflen - window, m);
    WrapIsMod(adjustment + queue, m);
    WrapIsMod(window + Wrap32(adjustment + queue), m);
  }

  /** The first half of a read leaves a window of three quarters of the initial one on top of the buffer, if
      and only if the window is wide enough already, or neither the adjustment nor the window it leaves is
      reduced to 32 bits. */
  lemma ReadWidensWindowIff(c: Chan, buflen: nat)
    requires c.adjust.state == Idle && c.read == Idle && c.adjust.queue < 1024
    ensures var a := ReadPrepare(c, buflen, Accepted);
            a.c.remote.window >= c.remote.windowInitial / 4 * 3 + buflen <==>
            (WindowTooNarrow(c, buflen) ==>
               && c.remote.windowInitial + buflen + c.adjust.queue < 0x1_0000_0000
               && c.remote.window + 1024 + c.adjust.queue < 0x1_0000_0000)
    ensures ReadPrepare(c, buflen, Accepted).rc == 0 && ReadPrepare(c, buflen, Accepted).c.read == Idle
  {
    if WindowTooNarrow(c, buflen) {
      WidensIff(c.remote.windowInitial, c.remote.window, c.adjust.queue, buflen);
      var total := Wrap32(ReadAdjustment(c, buflen) + c.adjust.queue);
      assert ReadPrepare(c, buflen, Accepted).c.remote.window == WidenedBy(c.remote.window, total);
    }
  }
}
