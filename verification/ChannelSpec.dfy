/**
 What each operation of the channel layer does to the session, as a function.

 A `World` is everything the operations read and write: the channels of the session, the shared
 list of received packets, and three traces that only specifications mention: what the transport
 accepted for sending, the messages that were handled, and a ledger of each channel's credit. The surroundings of a call
 (what arrives while it drains the transport, and how the transport answers its sends) are an `Env`.
 */
module ChannelSpec {
  import opened Bytes
  import opened PacketQueue

  const MINADJUST := 1024
  const WRITE_LIMIT := 32700
  const WINDOW_DEFAULT: u32 := 2 * 1024 * 1024
  const PACKET_DEFAULT: u32 := 32768

  const ERROR_SOCKET_SEND := -7
  const ERROR_PROTO := -14
  const ERROR_CHANNEL_FAILURE := -21
  const ERROR_CHANNEL_REQUEST_DENIED := -22
  const ERROR_CHANNEL_UNKNOWN := -23
  const ERROR_CHANNEL_CLOSED := -26
  const ERROR_CHANNEL_EOF_SENT := -27
  const ERROR_INVAL := -34
  const ERROR_EAGAIN := -37
  const ERROR_BAD_USE := -39

  const MSG_CHANNEL_OPEN: byte := 90
  const MSG_CHANNEL_OPEN_CONFIRMATION: byte := 91
  const MSG_CHANNEL_SUCCESS: byte := 99
  const MSG_CHANNEL_FAILURE: byte := 100

  /** The states of a resumable operation that the modelled operations use. */
  datatype State = Idle | Created | Sent | Jump1 | End

  /** One direction of a channel. `local` describes what this side sends, `remote` what it receives. */
  datatype ChannelData = ChannelData(
    id: u32, windowInitial: u32, window: u32, packetSize: u32, close: bool, eof: bool)

  type AdjustPacket = b: bytes | |b| == 9 witness [0, 0, 0, 0, 0, 0, 0, 0, 0]

  datatype Adjusting = Adjusting(state: State, queue: u32, packet: AdjustPacket)
  datatype Flushing = Flushing(state: State, refund: nat, bytes: nat)
  datatype Writing = Writing(state: State, packet: bytes, len: nat)
  datatype Parked = Parked(state: State, packet: bytes)

  /** The fields of a channel, those of each resumable operation together. The session's own record of
      an opening under way is kept with the channel being opened. */
  datatype Chan = Chan(
    local: ChannelData, remote: ChannelData, merge: bool, readAvail: nat, read: State,
    adjust: Adjusting, flush: Flushing, write: Writing, close: Parked, process: Parked, opening: Parked)

  function NewChan(local: ChannelData, remote: ChannelData, opening: Parked): Chan {
    Chan(local, remote, false, 0, Idle, Adjusting(Idle, 0, [0, 0, 0, 0, 0, 0, 0, 0, 0]), Flushing(Idle, 0, 0),
         Writing(Idle, [], 0), Parked(Idle, []), Parked(Idle, []), opening)
  }

  /** A packet the transport accepted on behalf of channel `id`, or in reply to a request that names it. */
  datatype Outgoing = Outgoing(id: u32, data: bytes)

  /** What happened to the credit of a channel: its id was handed out, the peer sent it a message, of whose data
      octets some were kept, or the peer granted it window. */
  datatype Entry = Opened(id: u32) | Received(id: u32, message: Message, kept: nat) | Granted(id: u32, count: nat)

  type Ledger = seq<Entry>

  type Message = b: bytes | |b| >= 1 witness [0]

  datatype World = World(
    chans: map<u32, Chan>, packets: Queue, wire: seq<Outgoing>, heard: seq<Message>, ledger: Ledger)

  /** A session before it has any channel. */
  function NoChannels(): World {
    World(map[], [], [], [], [])
  }

  type Failure = x: int | x < 0 && x != ERROR_EAGAIN witness -1

  /** How `_libssh2_transport_send` answers. */
  datatype SendAnswer = Accepted | WouldBlock | Failed(code: Failure)

  /** How `_libssh2_packet_requirev` answers: the first octet of the reply, or an error. */
  datatype Reply = Code(code: byte) | NoReplyYet | NoReply(error: Failure)

  /** How the wait for the reply to an opening ends: the peer's reply, nothing yet, or an error. */
  datatype OpenReply = Response(packet: Message) | Unanswered | NoAnswer(error: Failure)

  type ReadEnd = x: int | x <= 0

  /** The surroundings of one call: the messages the transport has ready and the call can handle, the code
      that ends a drain, the answers to the sends the call may make, and the replies it may wait for. */
  datatype Env = Env(
    arrivals: seq<Message>, readEnd: ReadEnd, send: SendAnswer, eofSend: SendAnswer, reply: Reply, openReply: OpenReply,
    connected: bool)

  function WithChan(w: World, k: u32, c: Chan): (w': World)
    ensures k in w.chans ==> w'.chans.Keys == w.chans.Keys
  {
    w.(chans := w.chans[k := c])
  }

  function Emit(w: World, k: u32, data: bytes): World {
    w.(wire := w.wire + [Outgoing(k, data)])
  }

  function SendCode(ans: SendAnswer): int {
    match ans
    case Accepted => 0
    case WouldBlock => ERROR_EAGAIN
    case Failed(code) => code
  }

  // ---- Receiving ----

  /** Message types that `_libssh2_packet_add` handles without queueing them. */
  predicate HandledAtOnce(msg: byte) {
    msg in {1, 2, 4, 7, 80, 90, MSG_CHANNEL_REQUEST, MSG_CHANNEL_EOF, MSG_CHANNEL_CLOSE, MSG_CHANNEL_WINDOW_ADJUST}
  }

  function HeadOf(msg: byte): nat {
    if msg == MSG_CHANNEL_DATA then 9 else if msg == MSG_CHANNEL_EXTENDED_DATA then 13 else 0
  }

  /** How many data octets of a message the channel keeps: none once the window is used up, and
      never more than the packet size it offered or what is left of the window. */
  function KeptOf(c: Chan, size: nat): nat {
    if c.remote.window <= c.readAvail then 0
    else Min(Min(size, c.remote.packetSize), c.remote.window - c.readAvail)
  }

  predicate IsDataMessage(m: Message) {
    HeadOf(m[0]) > 0 && |m| >= HeadOf(m[0])
  }

  /** Data arriving when the receive window is used up is dropped. */
  predicate Keeps(c: Chan, m: Message) {
    IsDataMessage(m) && c.remote.window > c.readAvail
  }

  /** How many data octets the peer sent in a message. */
  function SizeIn(m: Message): nat {
    if IsDataMessage(m) then |m| - HeadOf(m[0]) else 0
  }

  function KeptIn(c: Chan, m: Message): nat {
    if IsDataMessage(m) then KeptOf(c, SizeIn(m)) else 0
  }

  function GrantIn(m: Message): u32 {
    if m[0] == MSG_CHANNEL_WINDOW_ADJUST && |m| >= 9 then NtohU32(m[5..]) else 0
  }

  predicate ClosesIn(m: Message) {
    m[0] == MSG_CHANNEL_CLOSE && |m| >= 5
  }

  predicate EndsIn(m: Message) {
    ClosesIn(m) || (m[0] == MSG_CHANNEL_EOF && |m| >= 5)
  }

  /** What a message does to the channel it is for. */
  function Receive(c: Chan, m: Message): Chan {
    c.(local := c.local.(window := Wrap32(c.local.window + GrantIn(m))),
       remote := c.remote.(eof := EndsIn(m) || (c.remote.eof && !Keeps(c, m)), close := c.remote.close || ClosesIn(m)),
       readAvail := c.readAvail + KeptIn(c, m))
  }

  function QueuedFor(c: Chan, m: Message): Queue {
    var head := HeadOf(m[0]);
    if Keeps(c, m) then [RawPacket(m, head + KeptIn(c, m), head)] else []
  }

  function EntriesFor(c: Chan, k: u32, m: Message): Ledger {
    [Received(k, m, KeptIn(c, m)), Granted(k, GrantIn(m))]
  }

  /** A message that is long enough to name the channel it is about. */
  predicate IsFor(k: u32, m: Message) {
    (IsDataMessage(m) || EndsIn(m) || (m[0] == MSG_CHANNEL_WINDOW_ADJUST && |m| >= 9)) && NtohU32(m[1..]) == k
  }

  /** A message for channel `k`. */
  function AddTo(w: World, k: u32, m: Message): World
    requires k in w.chans
  {
    var c := w.chans[k];
    w.(chans := w.chans[k := Receive(c, m)], packets := w.packets + QueuedFor(c, m), ledger := w.ledger + EntriesFor(c, k, m))
  }

  /** Whether a channel request wants a reply. One too short to say so does, and where to look is computed in
      32 bits. */
  predicate WantsReply(m: Message) {
    && m[0] == MSG_CHANNEL_REQUEST && |m| >= 9
    && var at := Wrap32(NtohU32(m[5..]) + 9);
       at < |m| ==> m[at] != 0
  }

  /** The reply to a channel request carries back the id that the request carried. */
  function FailureBytes(m: Message): bytes
    requires |m| >= 5
  {
    [MSG_CHANNEL_FAILURE] + m[1..5]
  }

  /** `_libssh2_packet_add`. A message counts as handled once its reply, if it wants one, is accepted: one whose
      reply blocks ends the drain with EAGAIN and is handled later, and one whose reply fails has no effect. */
  function PacketAdd(w: World, m: Message): (w': World)
    ensures w'.chans.Keys == w.chans.Keys && w'.heard == w.heard + [m]
  {
    var w1 := w.(heard := w.heard + [m]);
    var k := if |m| >= 5 then NtohU32(m[1..]) else 0;
    if IsFor(k, m) && k in w.chans then AddTo(w1, k, m)
    else if WantsReply(m) then Emit(w1, k, FailureBytes(m))
    else if HeadOf(m[0]) > 0 || HandledAtOnce(m[0]) then w1
    else w1.(packets := w.packets + [RawPacket(m, |m|, 0)])
  }

  function Drain(w: World, arrivals: seq<Message>): (w': World)
    ensures w'.chans.Keys == w.chans.Keys
    decreases |arrivals|
  {
    if arrivals == [] then w else Drain(PacketAdd(w, arrivals[0]), arrivals[1..])
  }

  // ---- Window adjustment ----

  /** What one step of an operation does to its channel: the new fields, the code, and the packet
      that the transport accepted, if any. */
  datatype Act = Act(c: Chan, rc: int, sent: Option<bytes>)

  function Apply(w: World, k: u32, a: Act): (w': World)
    ensures k in w.chans ==> w'.chans.Keys == w.chans.Keys
  {
    var w1 := WithChan(w, k, a.c);
    if a.sent.Some? then Emit(w1, k, a.sent.value) else w1
  }

  datatype Outcome = Outcome(w: World, rc: int)

  function AdjustBytes(recipient: u32, amount: u32): AdjustPacket {
    [MSG_CHANNEL_WINDOW_ADJUST] + (StoreU32(recipient) + StoreU32(amount))
  }

  /** `_libssh2_channel_receive_window_adjust`. A resumed call sends the parked packet, but widens
      the window by its own argument. */
  function Adjust(c: Chan, adjustment: u32, force: bool, ans: SendAnswer): Act {
    if c.adjust.state == Idle && !force && Wrap32(adjustment + c.adjust.queue) < MINADJUST then
      Act(c.(adjust := c.adjust.(queue := Wrap32(c.adjust.queue + adjustment))), 0, None)
    else if c.adjust.state == Idle && adjustment == 0 && c.adjust.queue == 0 then
      Act(c, 0, None)
    else
      var amount := if c.adjust.state == Idle then Wrap32(adjustment + c.adjust.queue) else adjustment;
      var d := if c.adjust.state != Idle then c else
                 c.(adjust := Adjusting(Created, 0, AdjustBytes(c.remote.id, amount)));
      match ans
      case WouldBlock => Act(d, ERROR_EAGAIN, None)
      case Failed(_) => Act(d.(adjust := d.adjust.(queue := amount)), ERROR_SOCKET_SEND, None)
      case Accepted =>
        Act(d.(remote := d.remote.(window := Wrap32(d.remote.window + amount)), adjust := d.adjust.(state := Idle)),
            0, Some(d.adjust.packet))
  }

  function AdjustCall(w: World, k: u32, adjustment: u32, force: bool, env: Env): Outcome
    requires k in w.chans
  {
    var a := Adjust(w.chans[k], adjustment, force, env.send);
    Outcome(Apply(w, k, a), a.rc)
  }

  // ---- Reading ----

  predicate WindowTooNarrow(c: Chan, buflen: nat) {
    c.remote.window < c.remote.windowInitial / 4 * 3 + buflen
  }

  /** The adjustment a read asks for: enough for a full buffer on top of the initial window. */
  function ReadAdjustment(c: Chan, buflen: nat): u32 {
    var wanted := Wrap32(c.remote.windowInitial + buflen - c.remote.window);
    if wanted < MINADJUST then MINADJUST else wanted
  }

  /** The first half of a read: widen the receive window when it has become too narrow. */
  function ReadPrepare(c: Chan, buflen: nat, ans: SendAnswer): Act {
    if c.read == Jump1 || WindowTooNarrow(c, buflen) then
      var a := Adjust(c.(read := Jump1), ReadAdjustment(c, buflen), false, ans);
      if a.rc != 0 then a else a.(c := a.c.(read := Idle))
    else Act(c, 0, None)
  }

  /** Octets leaving the queue: they are no longer available, and the window shrinks by as much. */
  function Consume(c: Chan, n: nat): Chan {
    c.(readAvail := Wrap64(c.readAvail - n), remote := c.remote.(window := Wrap32(c.remote.window - n)))
  }

  datatype ReadOutcome = ReadOutcome(w: World, rc: int, data: bytes)

  /** The second half of a read: take octets off the queue and account for them. */
  function ReadTake(w: World, k: u32, stream: i32, buflen: nat, readEnd: ReadEnd): (o: ReadOutcome)
    requires k in w.chans
    ensures o.w.chans.Keys == w.chans.Keys
  {
    var c := w.chans[k];
    var f := By(Reader(c.local.id, stream, c.merge));
    var data := Taken(f, w.packets, buflen);
    var w' := w.(packets := AfterRead(f, w.packets, buflen));
    if data == [] then
      ReadOutcome(w', if c.remote.eof || c.remote.close || readEnd != ERROR_EAGAIN then 0 else ERROR_EAGAIN, [])
    else
      ReadOutcome(WithChan(w', k, Consume(c, |data|)), |data|, data)
  }

  /** The transport broke down during a drain. */
  predicate Broken(readEnd: ReadEnd) {
    readEnd < 0 && readEnd != ERROR_EAGAIN
  }

  /** A read with its window prepared: drain the transport, then take. */
  function ReadOn(w: World, k: u32, stream: i32, buflen: nat, env: Env): ReadOutcome
    requires k in w.chans
  {
    var w1 := Drain(w, env.arrivals);
    if Broken(env.readEnd) then ReadOutcome(w1, env.readEnd, []) else ReadTake(w1, k, stream, buflen, env.readEnd)
  }

  /** A read once it has prepared its window by `a`. */
  function ReadAfter(w: World, k: u32, a: Act, stream: i32, buflen: nat, env: Env): ReadOutcome
    requires k in w.chans
  {
    var w1 := Apply(w, k, a);
    if a.rc != 0 then ReadOutcome(w1, a.rc, []) else ReadOn(w1, k, stream, buflen, env)
  }

  /** `_libssh2_channel_read`. */
  function ReadCall(w: World, k: u32, stream: i32, buflen: nat, env: Env): ReadOutcome
    requires k in w.chans
  {
    ReadAfter(w, k, ReadPrepare(w.chans[k], buflen, env.send), stream, buflen, env)
  }

  /** The state in which a flush enters its second half. */
  function FlushMark(c: Chan, f: Flushed): Chan {
    if c.flush.state == Idle then c.(flush := Flushing(Created, f.refund, f.discarded)) else c
  }

  function RefundAct(c: Chan, ans: SendAnswer): Act {
    if c.flush.refund == 0 then Act(c, 0, None) else Adjust(c, Wrap32(c.flush.refund), true, ans)
  }

  /** A flush of `n` octets whose refund was dealt with by `a`. */
  function FlushEnd(a: Act, n: nat): Act {
    if a.rc == ERROR_EAGAIN then a else a.(c := a.c.(flush := a.c.flush.(state := Idle)), rc := AsInt32(Wrap32(n)))
  }

  /** The second half of a flush. Resuming it after EAGAIN consumes the same octets again. */
  function FlushFinish(c: Chan, ans: SendAnswer): Act {
    FlushEnd(RefundAct(Consume(c, c.flush.bytes), ans), c.flush.bytes)
  }

  /** A flush that found `f`: it fails at a packet cut short, or goes on to its second half. */
  function FlushAct(c: Chan, f: Flushed, ans: SendAnswer): Act {
    if c.flush.state == Idle && f.cut then Act(c.(flush := Flushing(Idle, f.refund, f.discarded)), ERROR_PROTO, None)
    else FlushFinish(FlushMark(c, f), ans)
  }

  /** `_libssh2_channel_flush`. */
  function FlushCall(w: World, k: u32, stream: i32, env: Env): Outcome
    requires k in w.chans
  {
    var c := w.chans[k];
    var f := Flush(c.local.id, stream, w.packets);
    var a := FlushAct(c, f, env.send);
    Outcome(Apply(if c.flush.state == Idle then w.(packets := f.left) else w, k, a), a.rc)
  }

  // ---- Writing ----

  function DataHeader(recipient: u32, stream: i32, count: u32): bytes {
    if stream != 0 then
      [MSG_CHANNEL_EXTENDED_DATA] + (StoreU32(recipient) + (StoreU32(Wrap32(stream)) + StoreU32(count)))
    else
      [MSG_CHANNEL_DATA] + (StoreU32(recipient) + StoreU32(count))
  }

  /** How much of a buffer one write carries. */
  function WriteSize(c: Chan, buflen: nat): u32 {
    Min(Min(Min(buflen, WRITE_LIMIT), c.local.window), c.local.packetSize)
  }

  function Park(c: Chan, stream: i32, buflen: nat): Chan {
    var n := WriteSize(c, buflen);
    c.(write := Writing(Created, DataHeader(c.remote.id, stream, n), n))
  }

  /** The send half of a write, which a call resumed after EAGAIN enters directly. */
  function SendParked(c: Chan, buf: bytes, ans: SendAnswer): Act
    requires c.write.len <= |buf|
  {
    match ans
    case WouldBlock => Act(c, ERROR_EAGAIN, None)
    case Failed(code) => Act(c.(write := c.write.(state := Idle)), code, None)
    case Accepted =>
      Act(c.(local := c.local.(window := Wrap32(c.local.window - c.write.len)), write := c.write.(state := Idle)),
          c.write.len, Some(c.write.packet + buf[..c.write.len]))
  }

  /** `_libssh2_channel_write`. A call that resumes a blocked one must pass the same arguments. */
  function WriteCall(w: World, k: u32, stream: i32, buf: bytes, env: Env): Outcome
    requires k in w.chans
    requires w.chans[k].write.state == Created ==> w.chans[k].write.len <= |buf|
  {
    var c := w.chans[k];
    if c.write.state == Created then
      var a := SendParked(c, buf, env.send);
      Outcome(Apply(w, k, a), a.rc)
    else if c.write.state != Idle then Outcome(w, ERROR_INVAL)
    else if c.local.close then Outcome(w, ERROR_CHANNEL_CLOSED)
    else if c.local.eof then Outcome(w, ERROR_CHANNEL_EOF_SENT)
    else
      var w1 := Drain(w, env.arrivals);
      if Broken(env.readEnd) then Outcome(w1, env.readEnd)
      else if w1.chans[k].local.window == 0 then Outcome(w1, if env.readEnd == ERROR_EAGAIN then ERROR_EAGAIN else 0)
      else
        var a := SendParked(Park(w1.chans[k], stream, |buf|), buf, env.send);
        Outcome(Apply(w1, k, a), a.rc)
  }

  // ---- Extended data ----

  /** `_libssh2_channel_extended_data`, which switches the merging of extended data into stream 0 on or off. */
  function SetMerge(c: Chan, on: bool): Act {
    Act(c.(merge := on), 0, None)
  }

  // ---- Ending ----

  function EofBytes(recipient: u32): bytes {
    [MSG_CHANNEL_EOF] + StoreU32(recipient)
  }

  function CloseBytes(recipient: u32): bytes {
    [MSG_CHANNEL_CLOSE] + StoreU32(recipient)
  }

  /** `channel_send_eof`: nothing stops it from sending a second EOF. */
  function SendEof(c: Chan, ans: SendAnswer): Act {
    match ans
    case WouldBlock => Act(c, ERROR_EAGAIN, None)
    case Failed(_) => Act(c, ERROR_SOCKET_SEND, None)
    case Accepted => Act(c.(local := c.local.(eof := true)), 0, Some(EofBytes(c.remote.id)))
  }

  function EofCall(w: World, k: u32, env: Env): Outcome
    requires k in w.chans
  {
    var a := SendEof(w.chans[k], env.eofSend);
    Outcome(Apply(w, k, a), a.rc)
  }

  /** The CLOSE half of a close, entered once the EOF is out of the way with code `rc`. */
  function SendClose(c: Chan, rc: int, ans: SendAnswer): Act {
    var d := if c.close.state == Idle then c.(close := Parked(Created, CloseBytes(c.remote.id))) else c;
    if d.close.state == Created then
      match ans
      case WouldBlock => Act(d, ERROR_EAGAIN, None)
      case Failed(code) => Act(d, code, None)
      case Accepted => Act(d.(close := d.close.(state := Sent)), 0, Some(d.close.packet))
    else Act(d, rc, None)
  }

  /** The wait for the peer's CLOSE: it ends at the first message of whatever type. */
  function AwaitClose(w: World, k: u32, arrivals: seq<Message>, readEnd: ReadEnd): (o: Outcome)
    requires k in w.chans
    ensures o.w.chans.Keys == w.chans.Keys
    decreases |arrivals|
  {
    if w.chans[k].remote.close then Outcome(w, 0)
    else if arrivals == [] then Outcome(w, readEnd)
    else
      var w1 := PacketAdd(w, arrivals[0]);
      if arrivals[0][0] != 0 then Outcome(w1, arrivals[0][0]) else AwaitClose(w1, k, arrivals[1..], readEnd)
  }

  /** The last step of a close: unless it would block, the channel is closed whatever went wrong. */
  function MarkClosed(c: Chan): Chan {
    c.(local := c.local.(close := true), close := c.close.(state := Idle))
  }

  /** A close once its EOF is out of the way with code `before`. */
  function CloseOn(w: World, k: u32, before: int, env: Env): (o: Outcome)
    requires k in w.chans
    ensures o.w.chans.Keys == w.chans.Keys
  {
    var a := SendClose(w.chans[k], before, env.send);
    var w1 := Apply(w, k, a);
    var waits := a.c.close.state == Sent && a.rc == 0 && env.connected;
    var o := if waits then AwaitClose(w1, k, env.arrivals, env.readEnd) else Outcome(w1, a.rc);
    if o.rc == ERROR_EAGAIN then o else Outcome(WithChan(o.w, k, MarkClosed(o.w.chans[k])), Min(o.rc, 0))
  }

  /** A close that has dealt with its EOF by `e`. */
  function CloseAfter(w: World, k: u32, e: Act, env: Env): (o: Outcome)
    requires k in w.chans
    ensures o.w.chans.Keys == w.chans.Keys
  {
    var w1 := Apply(w, k, e);
    if e.rc == ERROR_EAGAIN then Outcome(w1, ERROR_EAGAIN) else CloseOn(w1, k, e.rc, env)
  }

  function EofBeforeClose(c: Chan, ans: SendAnswer): Act {
    if c.local.eof then Act(c, 0, None) else SendEof(c, ans)
  }

  /** `_libssh2_channel_close`. */
  function CloseCall(w: World, k: u32, env: Env): (o: Outcome)
    requires k in w.chans
    ensures o.w.chans.Keys == w.chans.Keys
  {
    var c := w.chans[k];
    if c.local.close then Outcome(WithChan(w, k, c.(close := c.close.(state := Idle))), 0)
    else CloseAfter(w, k, EofBeforeClose(c, env.eofSend), env)
  }

  /** A channel leaves the session, and the data still queued for it is unlinked. */
  function Remove(w: World, k: u32): World
    requires k in w.chans
  {
    w.(packets := Others(AllData(w.chans[k].local.id), w.packets), chans := w.chans - {k})
  }

  /** The first half of a free: close the channel, if it is open and the connection lasts. */
  function BeforeFree(w: World, k: u32, env: Env): (o: Outcome)
    requires k in w.chans
    ensures o.w.chans.Keys == w.chans.Keys
  {
    if !w.chans[k].local.close && env.connected then CloseCall(w, k, env) else Outcome(w, 0)
  }

  /** `_libssh2_channel_free`. */
  function FreeCall(w: World, k: u32, env: Env): Outcome
    requires k in w.chans
  {
    var o := BeforeFree(w, k, env);
    if o.rc == ERROR_EAGAIN then o else Outcome(Remove(o.w, k), 0)
  }

  // ---- Process requests ----

  function RequestBytes(recipient: u32, request: Text, message: Option<bytes>): bytes {
    var length := if message.Some? then StoreU32(Wrap32(|message.value|)) else [];
    [MSG_CHANNEL_REQUEST] + (StoreU32(recipient) + (StoreU32(|request|) + (request + ([1] + length))))
  }

  function MessageOf(message: Option<bytes>): bytes {
    if message.Some? then message.value else []
  }

  /** The request half of a process startup. */
  function SendStart(c: Chan, request: Text, message: Option<bytes>, ans: SendAnswer): Act {
    var d := if c.process.state == Idle then
               c.(process := Parked(Created, RequestBytes(c.remote.id, request, message)))
             else c;
    if d.process.state != Created then Act(d, 0, None)
    else
      match ans
      case WouldBlock => Act(d, ERROR_EAGAIN, None)
      case Failed(code) => Act(d.(process := Parked(End, [])), code, None)
      case Accepted => Act(d.(process := Parked(Sent, [])), 0, Some(d.process.packet + MessageOf(message)))
  }

  /** The reply half of a process startup. */
  function AwaitStart(c: Chan, reply: Reply): Act {
    if c.process.state != Sent then Act(c, ERROR_CHANNEL_REQUEST_DENIED, None)
    else
      var ended := c.(process := c.process.(state := End));
      match reply
      case NoReplyYet => Act(c, ERROR_EAGAIN, None)
      case NoReply(error) => Act(ended, error, None)
      case Code(code) => Act(ended, if code == MSG_CHANNEL_SUCCESS then 0 else ERROR_CHANNEL_REQUEST_DENIED, None)
  }

  /** The wait for the reply to a startup, which reads the transport. */
  function StartReply(w: World, k: u32, env: Env): Outcome
    requires k in w.chans
  {
    var w1 := if w.chans[k].process.state == Sent then Drain(w, env.arrivals) else w;
    var a := AwaitStart(w1.chans[k], env.reply);
    Outcome(Apply(w1, k, a), a.rc)
  }

  /** `_libssh2_channel_process_startup`. */
  function StartCall(w: World, k: u32, request: Text, message: Option<bytes>, env: Env): Outcome
    requires k in w.chans
  {
    if w.chans[k].process.state == End then Outcome(w, ERROR_BAD_USE)
    else
      var a := SendStart(w.chans[k], request, message, env.send);
      var w1 := Apply(w, k, a);
      if a.rc != 0 then Outcome(w1, a.rc) else StartReply(w1, k, env)
  }

  // ---- Opening ----

  function OpenBytes(kind: Text, id: u32, window: u32, packetSize: u32): bytes {
    [MSG_CHANNEL_OPEN] + (StoreU32(|kind|) + (kind + (StoreU32(id) + (StoreU32(window) + StoreU32(packetSize)))))
  }

  function ConfirmBytes(sender: u32, id: u32): bytes {
    [MSG_CHANNEL_OPEN_CONFIRMATION] + (StoreU32(sender) + (StoreU32(id) + (StoreU32(WINDOW_DEFAULT) + StoreU32(PACKET_DEFAULT))))
  }

  /** A channel of this side, as it is listed before the peer knows of it. */
  function OwnChan(kind: Text, id: u32, window: u32, packetSize: u32): Chan {
    NewChan(ChannelData(id, 0, 0, 0, false, false), ChannelData(0, window, window, packetSize, false, false),
            Parked(Created, OpenBytes(kind, id, window, packetSize)))
  }

  /** A channel that the peer opened. */
  function PeerChan(id: u32, sender: u32, window: u32, packetSize: u32): Chan {
    NewChan(ChannelData(id, window, window, packetSize, false, false),
            ChannelData(sender, WINDOW_DEFAULT, WINDOW_DEFAULT, PACKET_DEFAULT, false, false), Parked(Idle, []))
  }

  /** A channel joins the session. */
  function Enter(w: World, k: u32, c: Chan): World {
    w.(chans := w.chans[k := c], ledger := w.ledger + [Opened(k)])
  }

  /** The peer's opening of a channel: it joins the session if its confirmation is accepted at once, and
      otherwise only its id is used up. */
  function PeerOpen(w: World, k: u32, sender: u32, window: u32, packetSize: u32, ans: SendAnswer): World {
    if ans == Accepted then Emit(Enter(w, k, PeerChan(k, sender, window, packetSize)), k, ConfirmBytes(sender, k))
    else w.(ledger := w.ledger + [Opened(k)])
  }

  /** The request half of an opening. */
  function SendOpen(c: Chan, message: bytes, ans: SendAnswer): Act {
    if c.opening.state != Created then Act(c, 0, None)
    else
      match ans
      case WouldBlock => Act(c, ERROR_EAGAIN, None)
      case Failed(code) => Act(c, code, None)
      case Accepted => Act(c.(opening := c.opening.(state := Sent)), 0, Some(c.opening.packet + message))
  }

  /** A reply that confirms an opening, and is long enough. */
  predicate Confirms(p: Message) {
    p[0] == MSG_CHANNEL_OPEN_CONFIRMATION && |p| >= 17
  }

  /** A channel whose opening is confirmed: the confirmation says what it may send. */
  function OpenedBy(c: Chan, p: Message): Chan
    requires Confirms(p)
  {
    c.(remote := c.remote.(id := NtohU32(p[5..])),
       local := c.local.(window := NtohU32(p[9..]), windowInitial := NtohU32(p[9..]), packetSize := NtohU32(p[13..])),
       opening := Parked(Idle, []))
  }

  /** The reply half of an opening. */
  function AwaitOpen(c: Chan, reply: OpenReply): Act {
    match reply
    case Unanswered => Act(c, ERROR_EAGAIN, None)
    case NoAnswer(error) => Act(c, error, None)
    case Response(p) =>
      if Confirms(p) then Act(OpenedBy(c, p), 0, None)
      else Act(c, if p[0] == MSG_CHANNEL_OPEN_CONFIRMATION then ERROR_PROTO else ERROR_CHANNEL_FAILURE, None)
  }

  /** One attempt at an opening: the request is sent, if it was not yet, and the reply awaited. */
  function OpenTry(w: World, k: u32, message: bytes, env: Env): (o: Outcome)
    requires k in w.chans
    ensures o.w.chans.Keys == w.chans.Keys
  {
    var a := SendOpen(w.chans[k], message, env.send);
    var w1 := Apply(w, k, a);
    if a.rc != 0 then Outcome(w1, a.rc)
    else
      var w2 := Drain(w1, env.arrivals);
      var b := AwaitOpen(w2.chans[k], env.openReply);
      Outcome(Apply(w2, k, b), b.rc)
  }

  /** `_libssh2_channel_open` on a channel already listed, where a call resumed after EAGAIN enters: a channel
      that fails to open is taken away again. */
  function OpenOn(w: World, k: u32, message: bytes, env: Env): Outcome
    requires k in w.chans
  {
    var o := OpenTry(w, k, message, env);
    if o.rc == 0 || o.rc == ERROR_EAGAIN then o else Outcome(Remove(o.w, k), o.rc)
  }

  /** `_libssh2_channel_open` from its idle state. */
  function OpenCall(w: World, k: u32, kind: Text, window: u32, packetSize: u32, message: bytes, env: Env): Outcome {
    OpenOn(Enter(w, k, OwnChan(kind, k, window, packetSize)), k, message, env)
  }
}
