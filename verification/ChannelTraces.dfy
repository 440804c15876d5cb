/**
 Reading the traces of a `World`: what a channel sent and received, counted and decoded, and the
 frame of every operation: which fields receiving may change, and whose trace a send extends.
 */
module ChannelTraces {
  import opened Bytes
  import opened PacketQueue
  import opened ChannelSpec

  // ---- Counting ----

  predicate IsData(data: bytes) {
    |data| > 0 && (data[0] == MSG_CHANNEL_DATA || data[0] == MSG_CHANNEL_EXTENDED_DATA)
  }

  /** The octets after the header of a sent data packet. */
  function Payload(data: bytes): bytes {
    if IsData(data) && |data| >= HeadOf(data[0]) then data[HeadOf(data[0])..] else []
  }

  /** The amount in a sent window adjustment. */
  function AdjustOf(data: bytes): nat {
    if |data| == 9 && data[0] == MSG_CHANNEL_WINDOW_ADJUST then NtohU32(data[5..]) else 0
  }

  /** The packets channel `k` has sent, in the order it sent them. */
  function Own(wire: seq<Outgoing>, k: u32): seq<bytes> {
    if wire == [] then []
    else
      var last, front := wire[|wire| - 1], Own(wire[..|wire| - 1], k);
      if last.id == k then front + [last.data] else front
  }

  /** The data octets in a list of sent packets. */
  function SentData(own: seq<bytes>): bytes {
    if own == [] then [] else SentData(own[..|own| - 1]) + Payload(own[|own| - 1])
  }

  /** The receive window granted by a list of sent packets. */
  function SentAdjusts(own: seq<bytes>): nat {
    if own == [] then 0 else SentAdjusts(own[..|own| - 1]) + AdjustOf(own[|own| - 1])
  }

  predicate IsRequest(data: bytes) {
    |data| > 0 && data[0] == MSG_CHANNEL_REQUEST
  }

  /** The channel requests among a list of sent packets. */
  function Requests(own: seq<bytes>): seq<bytes> {
    if own == [] then []
    else
      var last, front := own[|own| - 1], Requests(own[..|own| - 1]);
      if IsRequest(last) then front + [last] else front
  }

  /** A packet that carries data, ends the data, or closes the channel. */
  predicate IsStream(data: bytes) {
    |data| > 0 && MSG_CHANNEL_DATA <= data[0] <= MSG_CHANNEL_CLOSE
  }

  /** The types of the packets that carry, end or close, in the order they were sent. */
  function Kinds(own: seq<bytes>): bytes {
    if own == [] then []
    else
      var last, front := own[|own| - 1], Kinds(own[..|own| - 1]);
      if IsStream(last) then front + [last[0]] else front
  }

  /** A reply to a channel request. */
  predicate IsFailure(data: bytes) {
    |data| > 0 && data[0] == MSG_CHANNEL_FAILURE
  }

  /** What a channel has sent apart from replies to requests. */
  function Spoken(own: seq<bytes>): seq<bytes> {
    if own == [] then []
    else
      var last, front := own[|own| - 1], Spoken(own[..|own| - 1]);
      if IsFailure(last) then front else front + [last]
  }

  /** The replies. */
  function Answers(own: seq<bytes>): seq<bytes> {
    if own == [] then []
    else
      var last, front := own[|own| - 1], Answers(own[..|own| - 1]);
      if IsFailure(last) then front + [last] else front
  }

  lemma OwnExtends(own: seq<bytes>, data: bytes)
    ensures SentData(own + [data]) == SentData(own) + Payload(data)
    ensures SentAdjusts(own + [data]) == SentAdjusts(own) + AdjustOf(data)
    ensures Requests(own + [data]) == if IsRequest(data) then Requests(own) + [data] else Requests(own)
    ensures Kinds(own + [data]) == if IsStream(data) then Kinds(own) + [data[0]] else Kinds(own)
    ensures Spoken(own + [data]) == if IsFailure(data) then Spoken(own) else Spoken(own) + [data]
    ensures Answers(own + [data]) == if IsFailure(data) then Answers(own) + [data] else Answers(own)
  {
  }

  /** The data octets the peer sent to channel `k`. */
  function ReceivedBytes(ledger: Ledger, k: u32): nat {
    if ledger == [] then 0
    else
      var last := ledger[|ledger| - 1];
      ReceivedBytes(ledger[..|ledger| - 1], k) + if last.Received? && last.id == k then SizeIn(last.message) else 0
  }

  /** Those of them that were kept. */
  function KeptBytes(ledger: Ledger, k: u32): nat {
    if ledger == [] then 0
    else
      var last := ledger[|ledger| - 1];
      KeptBytes(ledger[..|ledger| - 1], k) + if last.Received? && last.id == k then last.kept else 0
  }

  function GrantedBytes(ledger: Ledger, k: u32): nat {
    if ledger == [] then 0
    else
      var last := ledger[|ledger| - 1];
      GrantedBytes(ledger[..|ledger| - 1], k) + if last.Granted? && last.id == k then last.count else 0
  }

  lemma LedgerExtends(ledger: Ledger, e: Entry, k: u32)
    ensures ReceivedBytes(ledger + [e], k) == ReceivedBytes(ledger, k) + (if e.Received? && e.id == k then SizeIn(e.message) else 0)
    ensures KeptBytes(ledger + [e], k) == KeptBytes(ledger, k) + (if e.Received? && e.id == k then e.kept else 0)
    ensures GrantedBytes(ledger + [e], k) == GrantedBytes(ledger, k) + (if e.Granted? && e.id == k then e.count else 0)
  {
  }

  // ---- Replies ----

  /** A request that names channel `k` and wants a reply. */
  predicate Demands(k: u32, m: Message) {
    WantsReply(m) && NtohU32(m[1..]) == k
  }

  /** The replies that messages demand of channel `k`, one for each that does. */
  function Replies(k: u32, ms: seq<Message>): seq<bytes> {
    if ms == [] then []
    else
      var last, front := ms[|ms| - 1], Replies(k, ms[..|ms| - 1]);
      if Demands(k, last) then front + [FailureBytes(last)] else front
  }

  lemma {:induction false} RepliesOfConcat(k: u32, a: seq<Message>, b: seq<Message>)
    ensures Replies(k, a + b) == Replies(k, a) + Replies(k, b)
    decreases |b|
  {
    if b == [] {
      assert a + b == a;
    } else {
      RepliesOfConcat(k, a, b[..|b| - 1]);
      assert (a + b)[..|a + b| - 1] == a + b[..|b| - 1];
    }
  }

  /** There is none if and only if no message demands one. */
  lemma {:induction false} NoRepliesIff(k: u32, ms: seq<Message>)
    ensures Replies(k, ms) == [] <==> forall i :: 0 <= i < |ms| ==> !Demands(k, ms[i])
  {
    if ms != [] {
      NoRepliesIff(k, ms[..|ms| - 1]);
    }
  }

  lemma FailureIsAside(own: seq<bytes>, m: Message)
    requires WantsReply(m)
    ensures var all := own + [FailureBytes(m)];
            && SentData(all) == SentData(own) && SentAdjusts(all) == SentAdjusts(own) && Requests(all) == Requests(own)
            && Kinds(all) == Kinds(own) && Spoken(all) == Spoken(own) && Answers(all) == Answers(own) + [FailureBytes(m)]
  {
    OwnExtends(own, FailureBytes(m));
    assert SentData(own) + [] == SentData(own);
  }

  /** Replies carry no data, window, request or end of a stream. */
  lemma {:induction false} RepliesAreAside(own: seq<bytes>, k: u32, ms: seq<Message>)
    ensures var all := own + Replies(k, ms);
            && SentData(all) == SentData(own) && SentAdjusts(all) == SentAdjusts(own) && Requests(all) == Requests(own)
            && Kinds(all) == Kinds(own) && Spoken(all) == Spoken(own) && Answers(all) == Answers(own) + Replies(k, ms)
    decreases |ms|
  {
    hide SentData, SentAdjusts, Requests, Kinds, Spoken, Answers, FailureBytes;
    if ms == [] {
      assert own + [] == own && Answers(own) + [] == Answers(own);
    } else {
      var front, last := ms[..|ms| - 1], ms[|ms| - 1];
      RepliesAreAside(own, k, front);
      if Demands(k, last) {
        FailureIsAside(own + Replies(k, front), last);
        assert own + Replies(k, ms) == (own + Replies(k, front)) + [FailureBytes(last)];
      }
    }
  }

  /** The packets on the wire apart from replies. */
  function Said(wire: seq<Outgoing>): seq<Outgoing> {
    if wire == [] then []
    else
      var last, front := wire[|wire| - 1], Said(wire[..|wire| - 1]);
      if IsFailure(last.data) then front else front + [last]
  }

  lemma SaidExtends(wire: seq<Outgoing>, o: Outgoing)
    ensures Said(wire + [o]) == if IsFailure(o.data) then Said(wire) else Said(wire) + [o]
  {
  }

  lemma OwnOfAppend(wire: seq<Outgoing>, o: Outgoing, k: u32)
    ensures Own(wire + [o], k) == if o.id == k then Own(wire, k) + [o.data] else Own(wire, k)
  {
  }

  /** From `w` to `w'`, channel `j` has replied once to each request handled since that demands it; and unless it
      is the one that acts (`own`), it has sent nothing else. */
  ghost predicate Replied(w: World, w': World, j: u32, own: bool) {
    && |w.heard| <= |w'.heard| && w'.heard[..|w.heard|] == w.heard
    && var since := Replies(j, w'.heard[|w.heard|..]);
       if own then Answers(Own(w'.wire, j)) == Answers(Own(w.wire, j)) + since
       else Own(w'.wire, j) == Own(w.wire, j) + since
  }

  lemma RepliedOn(w: World, w1: World, w2: World, j: u32, own: bool)
    requires Replied(w, w1, j, own) && Replied(w1, w2, j, own)
    ensures Replied(w, w2, j, own)
  {
    hide Replies, Answers, Own;
    var n, n1 := |w.heard|, |w1.heard|;
    assert w2.heard[..n] == w2.heard[..n1][..n];
    assert w2.heard[n..] == w1.heard[n..] + w2.heard[n1..] by {
      assert w2.heard == w1.heard + w2.heard[n1..];
    }
    RepliesOfConcat(j, w1.heard[n..], w2.heard[n1..]);
  }

  lemma RepliedOwn(w: World, w': World, j: u32, own: bool)
    requires Replied(w, w', j, false)
    ensures Replied(w, w', j, own)
  {
    RepliesAreAside(Own(w.wire, j), j, w'.heard[|w.heard|..]);
  }

  lemma SameReplied(w: World, w': World, j: u32, own: bool)
    requires w'.heard == w.heard && Own(w'.wire, j) == Own(w.wire, j)
    ensures Replied(w, w', j, own)
  {
    assert w'.heard[|w.heard|..] == [];
  }

  lemma ApplyReplied(w: World, k: u32, a: Act, j: u32)
    requires a.sent.Some? && j == k ==> !IsFailure(a.sent.value)
    ensures Replied(w, Apply(w, k, a), j, j == k)
  {
    assert w.heard[|w.heard|..] == [];
    if a.sent.Some? {
      OwnOfAppend(w.wire, Outgoing(k, a.sent.value), j);
      if j == k {
        OwnExtends(Own(w.wire, k), a.sent.value);
      }
    }
  }

  lemma AddReplied(w: World, m: Message, j: u32)
    ensures Replied(w, PacketAdd(w, m), j, false) && Said(PacketAdd(w, m).wire) == Said(w.wire)
  {
    var w1 := PacketAdd(w, m);
    assert w1.heard[|w.heard|..] == [m] && [m][..0] == [];
    if WantsReply(m) {
      var o := Outgoing(NtohU32(m[1..]), FailureBytes(m));
      OwnOfAppend(w.wire, o, j);
      SaidExtends(w.wire, o);
    }
  }

  /** Draining the transport sends nothing but the replies that were demanded. */
  lemma {:induction false} DrainReplied(w: World, arrivals: seq<Message>, j: u32)
    ensures Replied(w, Drain(w, arrivals), j, false) && Said(Drain(w, arrivals).wire) == Said(w.wire)
    ensures Drain(w, arrivals).heard == w.heard + arrivals
    decreases |arrivals|
  {
    hide PacketAdd, Replied;
    if arrivals == [] {
      SameReplied(w, w, j, false);
    } else {
      var w1 := PacketAdd(w, arrivals[0]);
      AddReplied(w, arrivals[0], j);
      DrainReplied(w1, arrivals[1..], j);
      RepliedOn(w, w1, Drain(w, arrivals), j, false);
    }
  }

  lemma {:induction false} AwaitReplied(w: World, k: u32, arrivals: seq<Message>, readEnd: ReadEnd, j: u32)
    requires k in w.chans
    ensures Replied(w, AwaitClose(w, k, arrivals, readEnd).w, j, false)
    decreases |arrivals|
  {
    hide PacketAdd, Replied;
    SameReplied(w, w, j, false);
    if !w.chans[k].remote.close && arrivals != [] {
      var w1 := PacketAdd(w, arrivals[0]);
      AddReplied(w, arrivals[0], j);
      if arrivals[0][0] == 0 {
        AwaitReplied(w1, k, arrivals[1..], readEnd, j);
        RepliedOn(w, w1, AwaitClose(w1, k, arrivals[1..], readEnd).w, j, false);
      }
    }
  }

  // ---- Decoding ----

  /** A channel message as sections 5.1 to 5.4 of RFC 4254 lay it out. */
  datatype Decoded = OpenRequest(kind: bytes, sender: u32, window: u32, packetSize: u32, extra: bytes)
                   | Confirmation(recipient: u32, sender: u32, window: u32, packetSize: u32)
                   | Data(recipient: u32, stream: i32, payload: bytes)
                   | WindowAdjust(recipient: u32, count: u32)
                   | Eof(recipient: u32)
                   | Close(recipient: u32)
                   | ChannelRequest(recipient: u32, fields: bytes)
                   | RequestFailed(recipient: u32)
                   | Malformed

  function DecodeOpen(m: bytes): Decoded {
    match TakeString(m)
    case None => Malformed
    case Some((kind, rest)) =>
      if |rest| < 12 then Malformed else OpenRequest(kind, NtohU32(rest), NtohU32(rest[4..]), NtohU32(rest[8..]), rest[12..])
  }

  function Decode(m: bytes): Decoded {
    if |m| < 5 then Malformed
    else
      var recipient := NtohU32(m[1..]);
      if m[0] == MSG_CHANNEL_OPEN then DecodeOpen(m[1..])
      else if m[0] == MSG_CHANNEL_OPEN_CONFIRMATION && |m| == 17 then
        Confirmation(recipient, NtohU32(m[5..]), NtohU32(m[9..]), NtohU32(m[13..]))
      else if m[0] == MSG_CHANNEL_EOF && |m| == 5 then Eof(recipient)
      else if m[0] == MSG_CHANNEL_CLOSE && |m| == 5 then Close(recipient)
      else if m[0] == MSG_CHANNEL_REQUEST then ChannelRequest(recipient, m[5..])
      else if m[0] == MSG_CHANNEL_FAILURE && |m| == 5 then RequestFailed(recipient)
      else if m[0] == MSG_CHANNEL_WINDOW_ADJUST && |m| == 9 then WindowAdjust(recipient, NtohU32(m[5..]))
      else if m[0] == MSG_CHANNEL_DATA && |m| >= 9 && NtohU32(m[5..]) == |m| - 9 then Data(recipient, 0, m[9..])
      else if m[0] == MSG_CHANNEL_EXTENDED_DATA && |m| >= 13 && NtohU32(m[9..]) == |m| - 13 then
        Data(recipient, AsInt32(NtohU32(m[5..])), m[13..])
      else Malformed
  }

  lemma LoadAt(prefix: bytes, v: u32, suffix: bytes)
    ensures NtohU32((prefix + StoreU32(v) + suffix)[|prefix|..]) == v
  {
    var m := prefix + StoreU32(v) + suffix;
    LoadOfStore(v);
    assert forall i :: 0 <= i < 4 ==> m[|prefix|..][i] == StoreU32(v)[i];
  }

  lemma PlainDecodes(recipient: u32, payload: bytes)
    requires |payload| < TWO_32
    ensures Decode(DataHeader(recipient, 0, |payload|) + payload) == Data(recipient, 0, payload)
  {
    var n := |payload|;
    var r := [MSG_CHANNEL_DATA] + StoreU32(recipient);
    var m := DataHeader(recipient, 0, n) + payload;
    assert m == [MSG_CHANNEL_DATA] + StoreU32(recipient) + (StoreU32(n) + payload);
    assert m == r + StoreU32(n) + payload;
    LoadAt([MSG_CHANNEL_DATA], recipient, StoreU32(n) + payload);
    LoadAt(r, n, payload);
    assert m[9..] == payload;
  }

  lemma SignedOfWrap(stream: i32)
    ensures AsInt32(Wrap32(stream)) == stream
  {
    if stream < 0 {
      assert Wrap(stream + 0x1_0000_0000, 0x1_0000_0000) == stream + 0x1_0000_0000;
      assert Wrap(stream, 0x1_0000_0000) == Wrap(stream + 0x1_0000_0000, 0x1_0000_0000);
    }
  }

  /** Three words after the type octet, and what follows them. */
  lemma ThreeWords(t: byte, a: u32, b: u32, c: u32, rest: bytes)
    ensures var m := [t] + (StoreU32(a) + (StoreU32(b) + StoreU32(c))) + rest;
            NtohU32(m[1..]) == a && NtohU32(m[5..]) == b && NtohU32(m[9..]) == c && m[13..] == rest
  {
    var x, y, z := StoreU32(a), StoreU32(b), StoreU32(c);
    var m := [t] + (x + (y + z)) + rest;
    LoadAt([t], a, y + z + rest);
    LoadAt([t] + x, b, z + rest);
    LoadAt([t] + x + y, c, rest);
    assert m == [t] + x + (y + z + rest);
    assert m == ([t] + x) + y + (z + rest);
    assert m == ([t] + x + y) + z + rest;
  }

  lemma ExtendedDecodes(recipient: u32, stream: i32, payload: bytes)
    requires |payload| < TWO_32 && stream != 0
    ensures Decode(DataHeader(recipient, stream, |payload|) + payload) == Data(recipient, stream, payload)
  {
    ThreeWords(MSG_CHANNEL_EXTENDED_DATA, recipient, Wrap32(stream), |payload|, payload);
    SignedOfWrap(stream);
  }

  /** A data packet decodes to its recipient, its stream and exactly its payload. */
  lemma DataDecodes(recipient: u32, stream: i32, payload: bytes)
    requires |payload| < TWO_32
    ensures Decode(DataHeader(recipient, stream, |payload|) + payload) == Data(recipient, stream, payload)
  {
    if stream == 0 {
      PlainDecodes(recipient, payload);
    } else {
      ExtendedDecodes(recipient, stream, payload);
    }
  }

  lemma WordsAfter(a: u32, b: u32, c: u32, rest: bytes)
    ensures var m := StoreU32(a) + (StoreU32(b) + StoreU32(c)) + rest;
            NtohU32(m) == a && NtohU32(m[4..]) == b && NtohU32(m[8..]) == c && m[12..] == rest
  {
    var m := StoreU32(a) + (StoreU32(b) + StoreU32(c)) + rest;
    ThreeWords(0, a, b, c, rest);
    assert [0] + (StoreU32(a) + (StoreU32(b) + StoreU32(c))) + rest == [0] + m;
    assert ([0] + m)[1..] == m && ([0] + m)[5..] == m[4..] && ([0] + m)[9..] == m[8..] && ([0] + m)[13..] == m[12..];
  }

  /** An opening decodes to its kind, its sender, what it offers and what follows. */
  lemma OpenDecodes(kind: Text, id: u32, window: u32, packetSize: u32, extra: bytes)
    ensures Decode(OpenBytes(kind, id, window, packetSize) + extra) == OpenRequest(kind, id, window, packetSize, extra)
  {
    var m := OpenBytes(kind, id, window, packetSize) + extra;
    var tail := StoreU32(id) + (StoreU32(window) + StoreU32(packetSize)) + extra;
    assert m[1..] == StringBytes(kind) + tail;
    TakeStringOfStored(kind, tail);
    WordsAfter(id, window, packetSize, extra);
  }

  /** A confirmation decodes to both ids and what this side offers. */
  lemma ConfirmDecodes(sender: u32, id: u32)
    ensures Decode(ConfirmBytes(sender, id)) == Confirmation(sender, id, WINDOW_DEFAULT, PACKET_DEFAULT)
  {
    var m := ConfirmBytes(sender, id);
    ThreeWords(MSG_CHANNEL_OPEN_CONFIRMATION, sender, id, WINDOW_DEFAULT, StoreU32(PACKET_DEFAULT));
    assert m == [MSG_CHANNEL_OPEN_CONFIRMATION] + (StoreU32(sender) + (StoreU32(id) + StoreU32(WINDOW_DEFAULT))) + StoreU32(PACKET_DEFAULT);
    LoadOfStore(PACKET_DEFAULT);
  }

  /** The three control packets decode to what they were built from. */
  lemma ControlDecodes(recipient: u32, amount: u32)
    ensures Decode(AdjustBytes(recipient, amount)) == WindowAdjust(recipient, amount)
    ensures AdjustOf(AdjustBytes(recipient, amount)) == amount
    ensures Decode(EofBytes(recipient)) == Eof(recipient)
    ensures Decode(CloseBytes(recipient)) == Close(recipient)
  {
    LoadAt([MSG_CHANNEL_WINDOW_ADJUST], recipient, StoreU32(amount));
    LoadAt([MSG_CHANNEL_WINDOW_ADJUST] + StoreU32(recipient), amount, []);
    assert AdjustBytes(recipient, amount) == [MSG_CHANNEL_WINDOW_ADJUST] + StoreU32(recipient) + StoreU32(amount) + [];
    LoadAt([MSG_CHANNEL_EOF], recipient, []);
    assert EofBytes(recipient) == [MSG_CHANNEL_EOF] + StoreU32(recipient) + [];
    LoadAt([MSG_CHANNEL_CLOSE], recipient, []);
    assert CloseBytes(recipient) == [MSG_CHANNEL_CLOSE] + StoreU32(recipient) + [];
  }

  /** A reply names the id that the request named, which is this side's. The peer takes it for its own, so that it
      reaches the channel that was meant if and only if both sides gave the channel the same id. */
  lemma ReplyReachesIff(c: Chan, m: Message)
    requires Demands(c.local.id, m)
    ensures Decode(FailureBytes(m)) == RequestFailed(c.local.id)
    ensures Decode(FailureBytes(m)) == RequestFailed(c.remote.id) <==> c.local.id == c.remote.id
  {
    assert NtohU32(FailureBytes(m)[1..]) == NtohU32(m[1..]);
  }

  // ---- What a channel's opening tells the peer ----

  /** What one side tells the other about a channel: its id of the channel, the window it opens, and the size of
      a packet it takes. */
  datatype Terms = Terms(id: u32, window: u32, packetSize: u32)

  /** The terms in a sent packet: an opening or the confirmation of one. */
  function OfferIn(p: bytes): Option<Terms> {
    match Decode(p)
    case OpenRequest(_, sender, window, packetSize, _) => Some(Terms(sender, window, packetSize))
    case Confirmation(_, sender, window, packetSize) => Some(Terms(sender, window, packetSize))
    case _ => None
  }

  function Offers(said: seq<bytes>): seq<Terms> {
    if said == [] then []
    else
      var last, front := OfferIn(said[|said| - 1]), Offers(said[..|said| - 1]);
      if last.Some? then front + [last.value] else front
  }

  /** The terms that a channel has announced, replies to requests aside. */
  function Announced(own: seq<bytes>): seq<Terms> {
    Offers(Spoken(own))
  }

  lemma OffersExtend(said: seq<bytes>, p: bytes)
    ensures Offers(said + [p]) == Offers(said) + if OfferIn(p).Some? then [OfferIn(p).value] else []
  {
    hide OfferIn;
    assert Offers(said) + [] == Offers(said);
  }

  /** Only openings and confirmations announce anything. */
  lemma NoOffer(p: bytes)
    requires |p| > 0 && p[0] != MSG_CHANNEL_OPEN && p[0] != MSG_CHANNEL_OPEN_CONFIRMATION
    ensures OfferIn(p) == None
  {
  }

  lemma AnnouncedExtends(own: seq<bytes>, p: bytes)
    ensures Announced(own + [p]) == Announced(own) + if OfferIn(p).Some? then [OfferIn(p).value] else []
  {
    hide OfferIn, Offers;
    OwnExtends(own, p);
    if IsFailure(p) {
      NoOffer(p);
      assert Announced(own) + [] == Announced(own);
    } else {
      OffersExtend(Spoken(own), p);
    }
  }

  /** What is counted of a sent packet is what it decodes to. */
  lemma CountsAreDecoded(p: bytes)
    ensures match Decode(p)
            case WindowAdjust(_, count) => AdjustOf(p) == count && Payload(p) == []
            case Data(_, _, payload) => AdjustOf(p) == 0 && Payload(p) == payload
            case _ => AdjustOf(p) == 0
  {
  }

  // ---- One channel's share of the world ----

  /** All that concerns one channel: its fields, the octets queued for it, what the peer sent it, how much
      of that was kept, what the peer granted it, and the packets it sent. */
  datatype View = View(c: Chan, queued: nat, received: nat, kept: nat, granted: nat, own: seq<bytes>)

  function ViewOf(w: World, k: u32): View
    requires k in w.chans
  {
    View(w.chans[k], QueuedBytes(k, w.packets), ReceivedBytes(w.ledger, k), KeptBytes(w.ledger, k), GrantedBytes(w.ledger, k),
         Own(w.wire, k))
  }

  /** Receiving one message, from the point of view of channel `k`. */
  function Deliver1(k: u32, v: View, m: Message): View {
    if IsFor(k, m) then
      v.(c := Receive(v.c, m), queued := v.queued + KeptIn(v.c, m), received := v.received + SizeIn(m),
         kept := v.kept + KeptIn(v.c, m), granted := v.granted + GrantIn(m))
    else if Demands(k, m) then v.(own := v.own + [FailureBytes(m)])
    else v
  }

  function Deliver(k: u32, v: View, arrivals: seq<Message>): View {
    if arrivals == [] then v
    else Deliver1(k, Deliver(k, v, arrivals[..|arrivals| - 1]), arrivals[|arrivals| - 1])
  }

  /** Appending one packet to the queue. */
  lemma AppendCounts(q: Queue, p: Packet, k: u32)
    ensures QueuedBytes(k, q + [p]) == QueuedBytes(k, q) + if DataFor(k, p) then |Unread(p)| else 0
  {
    StreamOfConcat(AllData(k), q, [p]);
    ConsQueue(AllData(k), p, []);
    assert [p] == [p] + [];
  }

  lemma QueueCounts(q: Queue, c: Chan, a: u32, m: Message, k: u32)
    requires IsFor(a, m)
    ensures QueuedBytes(k, q + QueuedFor(c, m)) == QueuedBytes(k, q) + if a == k then KeptIn(c, m) else 0
  {
    if Keeps(c, m) {
      AppendCounts(q, QueuedFor(c, m)[0], k);
    } else {
      assert q + [] == q;
    }
  }

  lemma EntriesCount(ledger: Ledger, c: Chan, a: u32, m: Message, k: u32)
    ensures var l := ledger + EntriesFor(c, a, m);
            && ReceivedBytes(l, k) == ReceivedBytes(ledger, k) + (if a == k then SizeIn(m) else 0)
            && KeptBytes(l, k) == KeptBytes(ledger, k) + (if a == k then KeptIn(c, m) else 0)
            && GrantedBytes(l, k) == GrantedBytes(ledger, k) + (if a == k then GrantIn(m) else 0)
  {
    var first, second := Received(a, m, KeptIn(c, m)), Granted(a, GrantIn(m));
    LedgerExtends(ledger, first, k);
    LedgerExtends(ledger + [first], second, k);
    assert ledger + EntriesFor(c, a, m) == ledger + [first] + [second];
  }

  lemma AddDelivers(w: World, m: Message, k: u32)
    requires k in w.chans
    ensures ViewOf(PacketAdd(w, m), k) == Deliver1(k, ViewOf(w, k), m)
  {
    var a := if |m| >= 5 then NtohU32(m[1..]) else 0;
    if IsFor(a, m) && a in w.chans {
      QueueCounts(w.packets, w.chans[a], a, m, k);
      EntriesCount(w.ledger, w.chans[a], a, m, k);
    } else if WantsReply(m) {
      OwnOfAppend(w.wire, Outgoing(a, FailureBytes(m)), k);
    } else if !(HeadOf(m[0]) > 0 || HandledAtOnce(m[0])) {
      AppendCounts(w.packets, RawPacket(m, |m|, 0), k);
    }
  }

  lemma {:induction false} DeliverOne(k: u32, v: View, first: Message, rest: seq<Message>)
    ensures Deliver(k, v, [first] + rest) == Deliver(k, Deliver1(k, v, first), rest)
    decreases |rest|
  {
    var all := [first] + rest;
    if rest == [] {
      assert all[..0] == [] && all[0] == first;
    } else {
      DeliverOne(k, v, first, rest[..|rest| - 1]);
      assert all[..|all| - 1] == [first] + rest[..|rest| - 1];
    }
  }

  /** Draining the transport is, for each channel, receiving the messages in order. */
  lemma {:induction false} DrainDelivers(w: World, arrivals: seq<Message>, k: u32)
    requires k in w.chans
    ensures ViewOf(Drain(w, arrivals), k) == Deliver(k, ViewOf(w, k), arrivals)
    decreases |arrivals|
  {
    if arrivals != [] {
      AddDelivers(w, arrivals[0], k);
      DrainDelivers(PacketAdd(w, arrivals[0]), arrivals[1..], k);
      DeliverOne(k, ViewOf(w, k), arrivals[0], arrivals[1..]);
      assert arrivals == [arrivals[0]] + arrivals[1..];
    }
  }

  /** So is waiting for a CLOSE, which receives the first `n` of them. */
  lemma {:induction false} AwaitDelivers(w: World, k: u32, arrivals: seq<Message>, readEnd: ReadEnd, j: u32) returns (n: nat)
    requires k in w.chans && j in w.chans
    ensures n <= |arrivals|
    ensures ViewOf(AwaitClose(w, k, arrivals, readEnd).w, j) == Deliver(j, ViewOf(w, j), arrivals[..n])
    decreases |arrivals|
  {
    hide PacketAdd, Deliver1, ViewOf;
    n := 0;
    if !w.chans[k].remote.close && arrivals != [] {
      var first, rest := arrivals[0], arrivals[1..];
      AddDelivers(w, first, j);
      if first[0] == 0 {
        n := AwaitDelivers(PacketAdd(w, first), k, rest, readEnd, j);
      }
      assert Deliver(j, Deliver1(j, ViewOf(w, j), first), rest[..0]) == Deliver1(j, ViewOf(w, j), first);
      DeliverOne(j, ViewOf(w, j), first, rest[..n]);
      n := n + 1;
      assert arrivals[..n] == [first] + rest[..n - 1];
    }
  }

  /** The packets an operation has parked for resumption are of the type that operation sends. */
  predicate Shaped(c: Chan) {
    && (c.adjust.state != Idle ==> c.adjust.packet[0] == MSG_CHANNEL_WINDOW_ADJUST)
    && (c.write.state == Created ==> IsData(c.write.packet) && |c.write.packet| == HeadOf(c.write.packet[0]))
    && (c.close.state == Created ==> |c.close.packet| == 5 && c.close.packet[0] == MSG_CHANNEL_CLOSE)
    && (c.process.state == Created ==> |c.process.packet| > 0 && c.process.packet[0] == MSG_CHANNEL_REQUEST)
    && (c.opening.state == Created ==> |c.opening.packet| > 0 && c.opening.packet[0] == MSG_CHANNEL_OPEN)
  }

  /** `d` is `c` after receiving: only the send window, the peer's EOF and CLOSE marks and the
      count of queued octets may differ. */
  predicate OnlyReceived(c: Chan, d: Chan) {
    d == c.(local := c.local.(window := d.local.window),
            remote := c.remote.(eof := d.remote.eof, close := d.remote.close),
            readAvail := d.readAvail)
  }

  lemma {:induction false} DeliverFrame(k: u32, v: View, arrivals: seq<Message>)
    ensures OnlyReceived(v.c, Deliver(k, v, arrivals).c)
    ensures Deliver(k, v, arrivals).own == v.own + Replies(k, arrivals)
    decreases |arrivals|
  {
    if arrivals == [] {
      assert v.own + [] == v.own;
    } else {
      DeliverFrame(k, v, arrivals[..|arrivals| - 1]);
    }
  }

  lemma Deliver1Aside(k: u32, v: View, m: Message)
    ensures var own := Deliver1(k, v, m).own;
            && SentData(own) == SentData(v.own) && SentAdjusts(own) == SentAdjusts(v.own) && Requests(own) == Requests(v.own)
            && Kinds(own) == Kinds(v.own) && Spoken(own) == Spoken(v.own)
  {
    hide SentData, SentAdjusts, Requests, Kinds, Spoken;
    if !IsFor(k, m) && Demands(k, m) {
      FailureIsAside(v.own, m);
    }
  }

  /** So what a channel has sent of each kind is not changed by receiving. */
  lemma DeliverAside(k: u32, v: View, arrivals: seq<Message>)
    ensures var own := Deliver(k, v, arrivals).own;
            && SentData(own) == SentData(v.own) && SentAdjusts(own) == SentAdjusts(v.own) && Requests(own) == Requests(v.own)
            && Kinds(own) == Kinds(v.own) && Spoken(own) == Spoken(v.own)
            && Answers(own) == Answers(v.own) + Replies(k, arrivals)
  {
    DeliverFrame(k, v, arrivals);
    RepliesAreAside(v.own, k, arrivals);
  }

  lemma DeliverKeepsId(k: u32, v: View, arrivals: seq<Message>)
    ensures Deliver(k, v, arrivals).c.local.id == v.c.local.id
  {
  }
}
