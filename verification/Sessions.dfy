/**
 The session, its channels and its listeners as the mutable objects they are. Every method updates
 fields in place, and is proved to do to the `World` of its session what the functions of
 `ChannelSpec` say.
 */
module Sessions {
  import opened Bytes
  import opened PacketQueue
  import opened ChannelSpec
  import ChannelTable

  /** A listener: its pending connections, and how many it counts and allows (0 for no limit). */
  datatype Listener = Listener(host: bytes, port: int, queue: seq<Channel>, queueSize: int, queueMaxsize: int)

  /** The trace after an act of channel `k`. */
  ghost function Sending(wire: seq<Outgoing>, k: u32, a: Act): seq<Outgoing> {
    if a.sent.Some? then wire + [Outgoing(k, a.sent.value)] else wire
  }

  /** Where a session is in answering a peer's connection: the confirmation or the refusal of one may block. */
  datatype Asking = NotAsked | Confirming(id: u32, packet: bytes) | Refusing

  /** Which listener takes a connection: the first for its host and port, if there is one. */
  function FirstFor(ls: seq<Listener>, host: bytes, port: int): (l: nat)
    ensures l <= |ls| && (l < |ls| ==> ls[l].host == host && ls[l].port == port)
    ensures forall m :: 0 <= m < l ==> ls[m].host != host || ls[m].port != port
  {
    if ls == [] || (ls[0].host == host && ls[0].port == port) then 0 else 1 + FirstFor(ls[1..], host, port)
  }

  lemma {:induction false} FirstForAt(ls: seq<Listener>, host: bytes, port: int, l: nat)
    requires l <= |ls| && (l < |ls| ==> ls[l].host == host && ls[l].port == port)
    requires forall m :: 0 <= m < l ==> ls[m].host != host || ls[m].port != port
    ensures FirstFor(ls, host, port) == l
  {
    if l > 0 {
      FirstForAt(ls[1..], host, port, l - 1);
    }
  }

  function AnswerOf(answer: SendAnswer): ChannelTable.Answer {
    match answer
    case Accepted => ChannelTable.Sent
    case WouldBlock => ChannelTable.Blocked
    case Failed(_) => ChannelTable.Lost
  }

  function Asked(kind: byte, id: u32): Pick {
    (p: Packet) => p.data[0] == kind && p.len >= 5 && NtohU32(p.data[1..]) == id
  }

  /** Comparing the four octets is comparing the numbers. */
  lemma AskedIff(kind: byte, id: u32, p: Packet)
    ensures Asked(kind, id)(p) <==> p.data[0] == kind && p.len >= 5 && p.data[1..5] == StoreU32(id)
  {
    if p.len >= 5 {
      assert NtohU32(p.data[1..]) == NtohU32(p.data[1..5]);
      StoreOfLoad(p.data[1..5]);
      LoadOfStore(id);
    }
  }

  lemma {:induction false} NothingAsked(f: Pick, q: Queue)
    requires forall j :: 0 <= j < |q| ==> !f(q[j])
    ensures WithoutFirst(f, q) == q
  {
    if q != [] {
      NothingAsked(f, q[1..]);
    }
  }

  function Ids(cs: seq<Channel>): (ids: seq<u32>)
    ensures |ids| == |cs|
  {
    seq(|cs|, i requires 0 <= i < |cs| => cs[i].localId)
  }

  function Slots(ls: seq<Listener>): (slots: seq<ChannelTable.Slot>)
    ensures |slots| == |ls|
  {
    seq(|ls|, i requires 0 <= i < |ls| => SlotOf(ls[i]))
  }

  function SlotOf(l: Listener): ChannelTable.Slot {
    ChannelTable.Slot(Ids(l.queue), l.queueSize, l.queueMaxsize)
  }

  /** Unlinking a channel takes its id out of the table. */
  lemma ListedUnlinks(channels: seq<Channel>, ls: seq<Listener>, next: u32, pending: Option<u32>, i: nat)
    requires i < |channels| && forall j :: 0 <= j < i ==> channels[j].localId != channels[i].localId
    ensures ChannelTable.Table(Ids(channels[..i] + channels[i + 1..]), Slots(ls), next, pending) ==
            ChannelTable.FreeId(ChannelTable.Table(Ids(channels), Slots(ls), next, pending), channels[i].localId)
  {
    var ids := Ids(channels);
    assert ids[i] in ids;
    ChannelTable.WithoutAt(ids, i);
    assert Ids(channels[..i] + channels[i + 1..]) == ids[..i] + ids[i + 1..];
  }

  lemma QueuedUnlinks(channels: seq<Channel>, ls: seq<Listener>, next: u32, pending: Option<u32>, l: nat, i: nat)
    requires l < |ls| && i < |ls[l].queue|
    requires forall d :: d in channels ==> d.localId != ls[l].queue[i].localId
    requires forall m, d :: 0 <= m < l && d in ls[m].queue ==> d.localId != ls[l].queue[i].localId
    requires forall j :: 0 <= j < i ==> ls[l].queue[j].localId != ls[l].queue[i].localId
    ensures var q := ls[l].queue;
            ChannelTable.Table(Ids(channels), Slots(ls[l := ls[l].(queue := q[..i] + q[i + 1..])]), next, pending) ==
            ChannelTable.FreeId(ChannelTable.Table(Ids(channels), Slots(ls), next, pending), q[i].localId)
  {
    var q := ls[l].queue;
    var id, ids, left := q[i].localId, Ids(q), q[..i] + q[i + 1..];
    assert ids[i] in ids && id !in Ids(channels);
    forall m | 0 <= m < l
      ensures id !in Slots(ls)[m].ids
    {
      assert Slots(ls)[m] == SlotOf(ls[m]);
    }
    ChannelTable.WithoutAt(ids, i);
    ChannelTable.WithoutInAt(Slots(ls), l, id);
    assert Ids(left) == ids[..i] + ids[i + 1..];
    assert Slots(ls[l := ls[l].(queue := left)]) == Slots(ls)[l := SlotOf(ls[l].(queue := left))];
  }

  lemma NextIdOfAppend(ids: seq<u32>, id: u32, next: u32)
    ensures var front := ChannelTable.NextId(ids, next);
            ChannelTable.NextId(ids + [id], next) == if id > front then id else front
  {
  }

  /** The table of channels without one of them. */
  lemma ValuesWithout(table: map<u32, Channel>, c: Channel)
    requires forall k :: k in table ==> table[k].localId == k
    requires c.localId in table && table[c.localId] == c
    ensures (table - {c.localId}).Values == table.Values - {c}
  {
    var rest := table - {c.localId};
    forall d
      ensures d in rest.Values <==> d in table.Values && d != c
    {
      if d in table.Values && d != c {
        assert rest[d.localId] == d;
      }
    }
  }

  lemma ValuesWith(table: map<u32, Channel>, c: Channel)
    requires c.localId !in table
    ensures table[c.localId := c].Values == table.Values + {c}
  {
    var more := table[c.localId := c];
    forall d
      ensures d in more.Values <==> d in table.Values || d == c
    {
      if d in table.Values {
        var k :| k in table && table[k] == d;
        assert more[k] == d;
      }
      assert more[c.localId] == c;
    }
  }

  lemma AcceptMoves(channels: seq<Channel>, ls: seq<Listener>, next: u32, pending: Option<u32>, l: nat)
    requires l < |ls| && ls[l].queue != []
    ensures var q := ls[l].queue;
            ChannelTable.Table(Ids(channels + [q[0]]), Slots(ls[l := ls[l].(queue := q[1..], queueSize := ls[l].queueSize - 1)]), next, pending) ==
            ChannelTable.AcceptId(ChannelTable.Table(Ids(channels), Slots(ls), next, pending), l)
  {
    var left := ls[l].(queue := ls[l].queue[1..], queueSize := ls[l].queueSize - 1);
    assert Ids(left.queue) == Ids(ls[l].queue)[1..];
    assert Slots(ls[l := left]) == Slots(ls)[l := SlotOf(left)];
    assert Ids(channels + [ls[l].queue[0]]) == Ids(channels) + [ls[l].queue[0].localId];
  }

  lemma EnqueueAdds(channels: seq<Channel>, ls: seq<Listener>, next: u32, pending: Option<u32>, l: nat, c: Channel)
    requires l < |ls|
    ensures var more := ls[l].(queue := ls[l].queue + [c], queueSize := ls[l].queueSize + 1);
            ChannelTable.Table(Ids(channels), Slots(ls[l := more]), next, pending) ==
            ChannelTable.Enqueue(ChannelTable.Table(Ids(channels), Slots(ls), next, pending), l, c.localId)
  {
    var more := ls[l].(queue := ls[l].queue + [c], queueSize := ls[l].queueSize + 1);
    assert Ids(more.queue) == Ids(ls[l].queue) + [c.localId];
    assert Slots(ls[l := more]) == Slots(ls)[l := SlotOf(more)];
  }

  ghost predicate Distinct(cs: seq<Channel>) {
    forall i, j :: 0 <= i < j < |cs| ==> cs[i] != cs[j]
  }

  /** Every channel is linked exactly once, where `place` says: in the session's own list (-1), or in
      the queue of a listener. */
  ghost predicate Layout(channels: seq<Channel>, ls: seq<Listener>, place: map<Channel, int>, all: set<Channel>) {
    && place.Keys == all
    && (forall c :: c in channels ==> c in place && place[c] == -1)
    && (forall i :: 0 <= i < |ls| ==> forall c :: c in ls[i].queue ==> c in place && place[c] == i)
    && (forall c :: c in place ==> if place[c] == -1 then c in channels else 0 <= place[c] < |ls| && c in ls[place[c]].queue)
    && Distinct(channels)
    && (forall i :: 0 <= i < |ls| ==> Distinct(ls[i].queue))
  }

  lemma LayoutWithoutListed(channels: seq<Channel>, ls: seq<Listener>, place: map<Channel, int>, all: set<Channel>, i: nat)
    requires Layout(channels, ls, place, all) && i < |channels|
    ensures var c := channels[i]; Layout(channels[..i] + channels[i + 1..], ls, place - {c}, all - {c})
  {
  }

  lemma LayoutWithoutQueued(channels: seq<Channel>, ls: seq<Listener>, place: map<Channel, int>, all: set<Channel>, l: nat, i: nat)
    requires Layout(channels, ls, place, all) && l < |ls| && i < |ls[l].queue|
    ensures var q := ls[l].queue;
            Layout(channels, ls[l := ls[l].(queue := q[..i] + q[i + 1..])], place - {q[i]}, all - {q[i]})
  {
  }

  lemma LayoutAccept(channels: seq<Channel>, ls: seq<Listener>, place: map<Channel, int>, all: set<Channel>, l: nat, size: int)
    requires Layout(channels, ls, place, all) && l < |ls| && ls[l].queue != []
    ensures var q := ls[l].queue;
            Layout(channels + [q[0]], ls[l := ls[l].(queue := q[1..], queueSize := size)], place[q[0] := -1], all)
  {
    var q := ls[l].queue;
    var c, ls', place' := q[0], ls[l := ls[l].(queue := q[1..], queueSize := size)], place[q[0] := -1];
    assert q == [c] + q[1..];
    assert place[c] == l && place'.Keys == all;
    assert c !in q[1..] by {
      assert forall j :: 1 <= j < |q| ==> q[j] != c;
    }
    forall i, d | 0 <= i < |ls'| && d in ls'[i].queue
      ensures d in place' && place'[d] == i
    {
      assert d in ls[i].queue;
    }
    forall d | d in place'
      ensures if place'[d] == -1 then d in channels + [c] else 0 <= place'[d] < |ls'| && d in ls'[place'[d]].queue
    {
      if d != c {
        assert place'[d] == place[d];
      }
    }
  }

  lemma LayoutAppend(channels: seq<Channel>, ls: seq<Listener>, place: map<Channel, int>, all: set<Channel>, c: Channel)
    requires Layout(channels, ls, place, all) && c !in all
    ensures Layout(channels + [c], ls, place[c := -1], all + {c})
  {
  }

  lemma LayoutEnqueue(channels: seq<Channel>, ls: seq<Listener>, place: map<Channel, int>, all: set<Channel>, c: Channel, l: nat, size: int)
    requires Layout(channels, ls, place, all) && c !in all && l < |ls|
    ensures Layout(channels, ls[l := ls[l].(queue := ls[l].queue + [c], queueSize := size)], place[c := l], all + {c})
  {
  }

  class Session {
    var channels: seq<Channel>
    var listeners: seq<Listener>
    var packets: Queue
    var nextChannel: u32
    var asking: Asking

    /** The channels by their ids, and where each is linked: -1 for the session's own list, or the
        index of a listener. */
    ghost var table: map<u32, Channel>
    ghost var place: map<Channel, int>

    /** What was sent, and what arrived. */
    ghost var wire: seq<Outgoing>
    ghost var heard: seq<Message>
    ghost var ledger: Ledger

    ghost predicate Keyed()
      reads this`table, table.Values
    {
      forall k :: k in table ==> table[k].localId == table[k].local.id == k && table[k].session == this
    }

    ghost predicate Valid()
      reads this`channels, this`listeners, this`table, this`place, table.Values
    {
      Keyed() && Layout(channels, listeners, place, table.Values)
    }

    ghost function Chans(): map<u32, Chan>
      reads this`table, table.Values
    {
      map k | k in table :: table[k].Snap()
    }

    ghost function Now(): World
      reads this`table, this`packets, this`wire, this`heard, this`ledger, table.Values
    {
      World(Chans(), packets, wire, heard, ledger)
    }

    ghost predicate Has(c: Channel)
      reads this`table, c
    {
      c.local.id in table && table[c.local.id] == c && c.session == this
    }

    constructor ()
      ensures Valid() && fresh(this)
      ensures Now() == NoChannels() && nextChannel == 0
    {
      channels, listeners, packets, nextChannel, asking := [], [], [], 0, NotAsked;
      table, place, wire, heard, ledger := map[], map[], [], [], [];
    }

    /** Only channel `c` has changed. */
    twostate lemma OneChanged(c: Channel)
      requires old(Valid()) && table == old(table) && c in table.Values
      requires channels == old(channels) && listeners == old(listeners) && place == old(place)
      requires c.local.id == old(c.local.id) && c.session == old(c.session)
      requires forall d :: d in table.Values && d != c ==> unchanged(d)
      ensures Valid() && Has(c) && Now().chans == old(Now().chans)[c.local.id := c.Snap()]
    {
      var k :| k in table && table[k] == c;
      forall j | j in table && j != k
        ensures table[j].Snap() == old(Now().chans)[j] && table[j].local.id == table[j].localId == j && table[j].session == this
      {
        assert table[j] in table.Values && table[j] != c;
      }
    }

    /** Only the table has changed, by losing one channel. */
    twostate lemma Forgotten(id: u32)
      requires table == old(table) - {id} && forall d :: d in table.Values ==> unchanged(d)
      ensures Chans() == old(Chans()) - {id}
    {
      forall k | k in table
        ensures Chans()[k] == old(Chans())[k]
      {
        assert table[k] in table.Values;
      }
    }

    /** Only the table has changed, by gaining one channel. */
    twostate lemma Added(new c: Channel)
      requires table == old(table)[c.localId := c] && c.localId !in old(table)
      requires forall d :: d in old(table).Values ==> unchanged(d)
      ensures Chans() == old(Chans())[c.localId := c.Snap()]
    {
      forall k | k in old(table)
        ensures Chans()[k] == old(Chans())[k]
      {
        assert old(table)[k] in old(table).Values;
      }
    }

    // ---- Finding channels ----

    /** `_libssh2_channel_locate` finds the one channel with an id. */
    method Locate(id: u32) returns (found: Channel?)
      requires Valid()
      ensures if id in table then found == table[id] else found == null
    {
      assert forall k :: k in table ==> table[k] in place;
      for i := 0 to |channels|
        invariant forall j :: 0 <= j < i ==> channels[j].local.id != id
      {
        assert channels[i] in table.Values;
        if channels[i].local.id == id {
          return channels[i];
        }
      }
      for l := 0 to |listeners|
        invariant forall j :: 0 <= j < |channels| ==> channels[j].local.id != id
        invariant forall m, c :: 0 <= m < l && c in listeners[m].queue ==> c.local.id != id
      {
        var queue := listeners[l].queue;
        for i := 0 to |queue|
          invariant forall j :: 0 <= j < i ==> queue[j].local.id != id
        {
          assert queue[i] in table.Values;
          if queue[i].local.id == id {
            return queue[i];
          }
        }
      }
      return null;
    }

    // ---- The transport ----

    /** `_libssh2_transport_send`, which answers as the surroundings say. */
    method Send(k: u32, data: bytes, answer: SendAnswer) returns (rc: int)
      modifies this`wire
      ensures rc == SendCode(answer)
      ensures wire == if answer == Accepted then old(wire) + [Outgoing(k, data)] else old(wire)
    {
      if answer == Accepted {
        wire := wire + [Outgoing(k, data)];
      }
      rc := SendCode(answer);
    }

    /** A message for channel `k`, if there is one. */
    method AddFor(k: u32, m: Message)
      requires Valid() && IsFor(k, m)
      modifies this`packets, this`ledger, table.Values
      ensures Valid() && Now() == if k in old(Now()).chans then AddTo(old(Now()), k, m) else old(Now())
    {
      hide Layout;
      ghost var was := Now();
      var c := Locate(k);
      if c != null {
        assert was.chans[k] == c.Snap();
        c.AddMessage(m);
        OneChanged(c);
        assert Now() == AddTo(was, k, m);
      }
    }

    /** The reply to a channel request, if it wants one. Which channel it names, if any, makes no difference. */
    method Answer(m: Message, answer: SendAnswer) returns (rc: int)
      requires m[0] == MSG_CHANNEL_REQUEST && |m| >= 9
      modifies this`wire
      ensures rc == if WantsReply(m) then SendCode(answer) else 0
      ensures wire == if WantsReply(m) && answer == Accepted then old(wire) + [Outgoing(NtohU32(m[1..]), FailureBytes(m))]
                      else old(wire)
    {
      var wantReply: byte := 1;
      var at := Wrap32(NtohU32(m[5..]) + 9);
      if at < |m| {
        wantReply := m[at];
      }
      rc := 0;
      if wantReply != 0 {
        rc := Send(NtohU32(m[1..]), [MSG_CHANNEL_FAILURE] + m[1..5], answer);
      }
    }

    /** What a message does beyond its reply. */
    method Handle(m: Message)
      requires Valid() && !WantsReply(m)
      modifies this`packets, this`heard, this`ledger, table.Values
      ensures Valid() && Now() == PacketAdd(old(Now()), m)
    {
      hide Layout, Chans;
      var head := HeadOf(m[0]);
      if head > 0 {
        if |m| >= head {
          AddFor(NtohU32(m[1..]), m);
        }
      } else if m[0] in {MSG_CHANNEL_EOF, MSG_CHANNEL_CLOSE, MSG_CHANNEL_WINDOW_ADJUST} {
        if |m| >= if m[0] == MSG_CHANNEL_WINDOW_ADJUST then 9 else 5 {
          AddFor(NtohU32(m[1..]), m);
        }
      } else if !HandledAtOnce(m[0]) {
        packets := packets + [RawPacket(m, |m|, 0)];
      }
      heard := heard + [m];
    }

    /** `_libssh2_packet_add`. A request whose reply the transport does not accept is not handled. */
    method Add(m: Message, answer: SendAnswer) returns (rc: int)
      requires Valid()
      modifies this`packets, this`wire, this`heard, this`ledger, table.Values
      ensures Valid()
      ensures if WantsReply(m) && answer != Accepted then Now() == old(Now()) && rc == SendCode(answer)
              else Now() == PacketAdd(old(Now()), m) && rc == 0
    {
      hide Layout, Chans;
      rc := 0;
      if m[0] == MSG_CHANNEL_REQUEST && |m| >= 9 {
        rc := Answer(m, answer);
        assert Chans() == old(Chans());
        if rc == 0 {
          heard := heard + [m];
        }
      } else {
        Handle(m);
      }
    }

    /** Reads the transport for as long as it has messages ready, and their replies are accepted. */
    method Receive(arrivals: seq<Message>)
      requires Valid()
      modifies this`packets, this`wire, this`heard, this`ledger, table.Values
      ensures Valid() && Now() == Drain(old(Now()), arrivals)
    {
      hide Layout, PacketAdd;
      for i := 0 to |arrivals|
        invariant Valid() && Drain(Now(), arrivals[i..]) == Drain(old(Now()), arrivals)
      {
        var rc := Add(arrivals[i], Accepted);
        assert arrivals[i..][1..] == arrivals[i + 1..];
      }
    }

    // ---- The received packets ----

    /** The three ways in which a packet is one a reader asked for. */
    method Wanted(r: Reader, p: Packet) returns (yes: bool)
      ensures yes == Selects(r, p)
    {
      if p.len < 5 {
        return false;
      }
      var mine := NtohU32(p.data[1..]) == r.id;
      yes := || (r.stream != 0 && p.data[0] == MSG_CHANNEL_EXTENDED_DATA && mine && p.len >= 9 && r.stream == AsInt32(NtohU32(p.data[5..])))
             || (r.stream == 0 && p.data[0] == MSG_CHANNEL_DATA && mine)
             || (r.stream == 0 && p.data[0] == MSG_CHANNEL_EXTENDED_DATA && mine && r.merge);
    }

    /** Takes octets off the front of a reader's packets, unlinking the drained ones. */
    method TakeQueued(r: Reader, buflen: nat) returns (data: bytes)
      modifies this`packets
      ensures data == Taken(By(r), old(packets), buflen) && packets == AfterRead(By(r), old(packets), buflen)
    {
      hide Reading, Taken, AfterRead, Selects;
      ghost var f, q := By(r), packets;
      ghost var done: Queue, rest: Queue := [], packets;
      var i := 0;
      data := [];
      ReadingBegins(f, q, buflen);
      while i < |packets| && |data| < buflen
        invariant packets == done + rest && i == |done| && |data| <= buflen
        invariant Reading(f, q, buflen, done, rest, data)
        decreases |rest|
      {
        var p, want := packets[i], buflen - |data|;
        var wanted := Wanted(r, p);
        if !wanted {
          ReadingPasses(f, q, buflen, done, rest, data);
          Splice(done, rest, p);
          done, i := done + [p], i + 1;
        } else if want >= p.len - p.head {
          ReadingDrains(f, q, buflen, done, rest, data);
          data := data + p.data[p.head..p.len];
          Splice(done, rest, p);
          packets := packets[..i] + packets[i + 1..];
        } else {
          ReadingCuts(f, q, buflen, done, rest, data);
          data := data + p.data[p.head..p.head + want];
          var part := p.(head := p.head + want);
          Splice(done, rest, part);
          packets := packets[i := part];
          done, i := done + [part], i + 1;
        }
        rest := rest[1..];
        ReadingFits(f, q, buflen, done, rest, data);
      }
      ReadingEnds(f, q, buflen, done, rest, data);
    }

    /** Unlinks the packets of a stream, and counts what it discards and what it will refund. */
    method Discard(id: u32, stream: i32) returns (discarded: nat, refund: nat, cut: bool)
      modifies this`packets
      ensures Flushed(packets, discarded, refund, cut) == Flush(id, stream, old(packets))
    {
      hide PacketQueue.Flush;
      ghost var done: Queue, rest: Queue := [], packets;
      var i := 0;
      discarded, refund := 0, 0;
      while i < |packets|
        invariant packets == done + rest && i == |done| && refund < 0x1_0000_0000_0000_0000
        invariant Discarding(id, stream, old(packets), done, rest, discarded, refund)
        decreases |rest|
      {
        var p := packets[i];
        var mine := (p.data[0] == MSG_CHANNEL_DATA || p.data[0] == MSG_CHANNEL_EXTENDED_DATA) && p.len >= 5 && NtohU32(p.data[1..]) == id;
        var extended := p.data[0] == MSG_CHANNEL_EXTENDED_DATA;
        if mine && extended && p.len < 9 {
          DiscardingEnds(id, stream, old(packets), done, rest, discarded, refund);
          return discarded, refund, true;
        }
        if && mine
           && (|| stream == FLUSH_ALL
               || (extended && (stream == FLUSH_EXTENDED_DATA || stream == AsInt32(NtohU32(p.data[5..]))))
               || (!extended && stream == 0)) {
          DiscardingTakes(id, stream, old(packets), done, rest, discarded, refund);
          refund := Wrap64(refund + (p.len - 13));
          discarded := discarded + (p.len - p.head);
          Splice(done, rest, p);
          packets := packets[..i] + packets[i + 1..];
        } else {
          DiscardingPasses(id, stream, old(packets), done, rest, discarded, refund);
          Splice(done, rest, p);
          done, i := done + [p], i + 1;
        }
        rest := rest[1..];
      }
      DiscardingEnds(id, stream, old(packets), done, rest, discarded, refund);
      return discarded, refund, false;
    }

    /** `_libssh2_packet_ask`: unlinks the first packet of a type that carries an id after its first octet. */
    method Ask(kind: byte, id: u32) returns (found: bool)
      modifies this`packets
      ensures packets == WithoutFirst(Asked(kind, id), old(packets))
      ensures if found then |packets| < |old(packets)| else packets == old(packets)
      ensures !found ==> forall p :: p in packets ==> !Asked(kind, id)(p)
    {
      var wanted := StoreU32(id);
      for i := 0 to |packets|
        invariant packets == old(packets) && forall j :: 0 <= j < i ==> !Asked(kind, id)(packets[j])
      {
        var p := packets[i];
        AskedIff(kind, id, p);
        if p.data[0] == kind && p.len >= 5 && p.data[1..5] == wanted {
          WithoutFirstAt(Asked(kind, id), packets, i);
          packets := packets[..i] + packets[i + 1..];
          return true;
        }
      }
      NothingAsked(Asked(kind, id), packets);
      return false;
    }

    /** Clears out the packets meant for a channel. */
    method Clear(id: u32)
      modifies this`packets
      ensures packets == Others(AllData(id), old(packets))
    {
      var found := true;
      while found
        invariant Others(AllData(id), packets) == Others(AllData(id), old(packets))
        invariant !found ==> forall p :: p in packets ==> !DataFor(id, p)
        decreases |packets|, found
      {
        OthersOfWithoutFirst(AllData(id), Asked(MSG_CHANNEL_DATA, id), packets);
        found := Ask(MSG_CHANNEL_DATA, id);
        if !found {
          OthersOfWithoutFirst(AllData(id), Asked(MSG_CHANNEL_EXTENDED_DATA, id), packets);
          found := Ask(MSG_CHANNEL_EXTENDED_DATA, id);
        }
      }
      NoneToUnlink(AllData(id), packets);
    }

    // ---- The lists of channels ----

    method Unlink(c: Channel)
      requires Valid() && Has(c)
      modifies this`channels, this`listeners, this`table, this`place
      ensures Valid() && Table() == ChannelTable.FreeId(old(Table()), c.localId)
      ensures Chans() == old(Chans()) - {c.localId}
    {
      var found := UnlinkListed(c);
      if !found {
        UnlinkQueued(c);
      }
      Forgotten(c.localId);
    }

    /** The ids in use, as `ChannelTable` sees them. */
    ghost function Table(): ChannelTable.Table
      reads this`channels, this`listeners, this`nextChannel, this`asking
    {
      ChannelTable.Table(Ids(channels), Slots(listeners), nextChannel, Pending())
    }

    ghost function Pending(): Option<u32>
      reads this`asking
    {
      if asking.Confirming? then Some(asking.id) else None
    }

    /** `_libssh2_channel_nextid`. */
    method NextId() returns (id: u32)
      requires Valid()
      modifies this`nextChannel
      ensures id == ChannelTable.NextId(Ids(channels), old(nextChannel)) && nextChannel == Wrap32(id + 1)
    {
      id := nextChannel;
      for i := 0 to |channels|
        invariant id == ChannelTable.NextId(Ids(channels[..i]), old(nextChannel))
      {
        assert channels[..i + 1] == channels[..i] + [channels[i]];
        assert channels[i] in table.Values;
        assert Ids(channels[..i + 1]) == Ids(channels[..i]) + [channels[i].localId];
        NextIdOfAppend(Ids(channels[..i]), channels[i].localId, old(nextChannel));
        if channels[i].local.id > id {
          id := channels[i].local.id;
        }
      }
      assert channels[..|channels|] == channels;
      nextChannel := Wrap32(id + 1);
    }

    /** No channel listed before another has its id. */
    lemma ListedIdsDiffer(i: nat)
      requires Valid() && i < |channels|
      ensures var c := channels[i];
              && c in table.Values && c.localId in table && table[c.localId] == c
              && (forall j :: 0 <= j < i ==> channels[j].localId != c.localId)
    {
      var c := channels[i];
      assert c in place && forall d :: d in place ==> d in table.Values && (d.localId == c.localId ==> d == c);
    }

    method RemoveListed(i: nat)
      requires Valid() && i < |channels|
      modifies this`channels, this`table, this`place
      ensures Valid() && table == old(table) - {old(channels)[i].localId}
      ensures Table() == ChannelTable.FreeId(old(Table()), old(channels)[i].localId)
    {
      ghost var c := channels[i];
      ListedIdsDiffer(i);
      ListedUnlinks(channels, listeners, nextChannel, Pending(), i);
      LayoutWithoutListed(channels, listeners, place, table.Values, i);
      hide Layout;
      ValuesWithout(table, c);
      channels := channels[..i] + channels[i + 1..];
      table, place := table - {c.localId}, place - {c};
    }

    /** No channel but the one at a place in a queue has its id. */
    lemma QueuedIdsDiffer(l: nat, i: nat)
      requires Valid() && l < |listeners| && i < |listeners[l].queue|
      ensures var c := listeners[l].queue[i];
              && c in table.Values && c.localId in table && table[c.localId] == c
              && (forall d :: d in channels ==> d.localId != c.localId)
              && (forall m, d :: 0 <= m < l && d in listeners[m].queue ==> d.localId != c.localId)
              && (forall j :: 0 <= j < i ==> listeners[l].queue[j].localId != c.localId)
    {
      var c := listeners[l].queue[i];
      assert c in place && forall d :: d in place ==> d in table.Values && (d.localId == c.localId ==> d == c);
    }

    method RemoveQueued(l: nat, i: nat)
      requires Valid() && l < |listeners| && i < |listeners[l].queue|
      modifies this`listeners, this`table, this`place
      ensures var c := old(listeners)[l].queue[i];
              Valid() && table == old(table) - {c.localId} && Table() == ChannelTable.FreeId(old(Table()), c.localId)
    {
      var queue := listeners[l].queue;
      ghost var c := queue[i];
      QueuedIdsDiffer(l, i);
      QueuedUnlinks(channels, listeners, nextChannel, Pending(), l, i);
      ValuesWithout(table, c);
      LayoutWithoutQueued(channels, listeners, place, table.Values, l, i);
      listeners := listeners[l := listeners[l].(queue := queue[..i] + queue[i + 1..])];
      table, place := table - {c.localId}, place - {c};
    }

    /** Every known channel is in use in the table of ids. */
    lemma KnownIsUsed(k: u32)
      requires Valid() && k in table
      ensures ChannelTable.Uses(Table(), k) > 0
    {
      var c := table[k];
      assert c in place;
      if place[c] == -1 {
        var i :| 0 <= i < |channels| && channels[i] == c;
        assert Ids(channels)[i] == k;
        ChannelTable.CountIsMembership(Ids(channels), k);
      } else {
        var l := place[c];
        var i :| 0 <= i < |listeners[l].queue| && listeners[l].queue[i] == c;
        assert Slots(listeners)[l] == SlotOf(listeners[l]) && Ids(listeners[l].queue)[i] == k;
        ChannelTable.QueuedIsUsed(Slots(listeners), l, k);
      }
    }

    /** So for the first 2^32 allocations the id handed out is new, as opening a channel requires. */
    lemma NextIdIsNew(count: nat)
      requires Valid() && ChannelTable.Sound(Table(), count) && count < TWO_32
      ensures ChannelTable.NextId(Ids(channels), nextChannel) !in table
    {
      ChannelTable.NextIdIsAllocated(Table(), count);
      if count in table {
        KnownIsUsed(count);
      }
    }

    /** Takes a channel off the session's own list, if it is linked there. */
    method UnlinkListed(c: Channel) returns (found: bool)
      requires Valid() && Has(c)
      modifies this`channels, this`table, this`place
      ensures found == (c in old(channels))
      ensures if found then Valid() && table == old(table) - {c.localId}
              else channels == old(channels) && table == old(table) && place == old(place)
      ensures found ==> Table() == ChannelTable.FreeId(old(Table()), c.localId)
    {
      for i := 0 to |channels|
        invariant forall j :: 0 <= j < i ==> channels[j] != c
      {
        if channels[i] == c {
          RemoveListed(i);
          return true;
        }
      }
      return false;
    }

    /** Takes a channel off the listener it is queued on. */
    method UnlinkQueued(c: Channel)
      requires Valid() && Has(c) && c !in channels
      modifies this`listeners, this`table, this`place
      ensures Valid() && table == old(table) - {c.localId}
      ensures Table() == ChannelTable.FreeId(old(Table()), c.localId)
    {
      assert c in place;
      for l := 0 to |listeners|
        invariant forall j :: 0 <= j < l ==> c !in listeners[j].queue
      {
        var queue := listeners[l].queue;
        for i := 0 to |queue|
          invariant forall j :: 0 <= j < i ==> queue[j] != c
        {
          if queue[i] == c {
            RemoveQueued(l, i);
            return;
          }
        }
      }
    }

    /** The id that the next opening hands out. */
    ghost function NewId(): u32
      reads this`channels, this`nextChannel
    {
      ChannelTable.NextId(Ids(channels), nextChannel)
    }

    /** The idle state of `_libssh2_channel_open`: a channel this side opens is listed at once. The id is new
        as long as at most 2^32 were allocated. */
    method BeginOpen(kind: Text, window: u32, packetSize: u32) returns (c: Channel)
      requires Valid() && NewId() !in table
      modifies this`channels, this`nextChannel, this`table, this`place, this`ledger
      ensures Valid() && fresh(c) && c.localId == old(NewId()) && table == old(table)[c.localId := c] && Has(c)
      ensures Table() == ChannelTable.OpenId(old(Table()))
      ensures Now() == Enter(old(Now()), c.localId, OwnChan(kind, c.localId, window, packetSize))
    {
      hide Layout;
      var id: u32 := TakeId();
      c := new Channel(this, ChannelData(id, 0, 0, 0, false, false), ChannelData(0, window, window, packetSize, false, false),
                       Parked(Created, OpenBytes(kind, id, window, packetSize)));
      Append(c);
      Added(c);
    }

    /** `_libssh2_channel_open`. Between the calls of one opening the session remembers the channel, which here
        the caller passes back as `pending`. */
    method Open(pending: Channel?, kind: Text, window: u32, packetSize: u32, message: bytes, env: Env)
      returns (c: Channel?, rc: int)
      requires Valid() && if pending == null then NewId() !in table else Has(pending)
      modifies this`channels, this`listeners, this`nextChannel, this`table, this`place
      modifies this`packets, this`wire, this`heard, this`ledger, table.Values
      ensures Valid()
      ensures var id := if pending == null then old(NewId()) else pending.localId;
              var o := if pending == null then OpenCall(old(Now()), id, kind, window, packetSize, message, env)
                       else OpenOn(old(Now()), id, message, env);
              Now() == o.w && rc == o.rc
      ensures var id := if pending == null then old(NewId()) else pending.localId;
              var t := if pending == null then ChannelTable.OpenId(old(Table())) else old(Table());
              if rc == 0 || rc == ERROR_EAGAIN then Table() == t && c != null && Has(c) && c.localId == id
              else Table() == ChannelTable.FreeId(t, id) && c == null
    {
      c := pending;
      if c == null {
        c := BeginOpen(kind, window, packetSize);
      }
      rc := c.ContinueOpen(message, env);
      if rc != 0 && rc != ERROR_EAGAIN {
        c := null;
      }
    }

    method Append(c: Channel)
      requires Valid() && c.localId == c.local.id && c.session == this && c.localId !in table
      modifies this`channels, this`table, this`place
      ensures Valid() && Table() == old(Table()).(channels := old(Table()).channels + [c.localId])
      ensures table == old(table)[c.localId := c]
    {
      LayoutAppend(channels, listeners, place, table.Values, c);
      ValuesWith(table, c);
      assert Ids(channels + [c]) == Ids(channels) + [c.localId];
      channels := channels + [c];
      table, place := table[c.localId := c], place[c := -1];
    }

    /** `channel_forward_accept`: drain the transport, then move the first pending connection over. */
    method Accept(l: nat, env: Env) returns (c: Channel?, error: int)
      requires Valid() && l < |listeners|
      modifies this`channels, this`listeners, this`place, this`packets, this`wire, this`heard, this`ledger, table.Values
      ensures Valid() && table == old(table) && Now() == Drain(old(Now()), env.arrivals)
      ensures Table() == ChannelTable.AcceptId(old(Table()), l)
      ensures var q := old(listeners[l].queue);
              if q != [] then c == q[0]
              else c == null && error == if env.readEnd == ERROR_EAGAIN then ERROR_EAGAIN else ERROR_CHANNEL_UNKNOWN
    {
      hide Layout, Chans;
      Receive(env.arrivals);
      c, error := AcceptNext(l, env.readEnd);
    }

    method AcceptNext(l: nat, readEnd: ReadEnd) returns (c: Channel?, error: int)
      requires Valid() && l < |listeners|
      modifies this`channels, this`listeners, this`place
      ensures Valid() && Table() == ChannelTable.AcceptId(old(Table()), l)
      ensures var q := old(listeners[l].queue);
              if q != [] then c == q[0]
              else c == null && error == if readEnd == ERROR_EAGAIN then ERROR_EAGAIN else ERROR_CHANNEL_UNKNOWN
    {
      error := 0;
      assert Slots(listeners)[l] == SlotOf(listeners[l]);
      if listeners[l].queue != [] {
        c := AcceptFirst(l);
      } else {
        c, error := null, if readEnd == ERROR_EAGAIN then ERROR_EAGAIN else ERROR_CHANNEL_UNKNOWN;
      }
    }

    method AcceptFirst(l: nat) returns (c: Channel)
      requires Valid() && l < |listeners| && listeners[l].queue != []
      modifies this`channels, this`listeners, this`place
      ensures Valid() && Table() == ChannelTable.AcceptId(old(Table()), l)
      ensures var q := old(listeners[l].queue);
              c == q[0] && channels == old(channels) + [c] && |listeners| == |old(listeners)| && listeners[l].queue == q[1..]
    {
      var listener := listeners[l];
      c := listener.queue[0];
      LayoutAccept(channels, listeners, place, table.Values, l, listener.queueSize - 1);
      AcceptMoves(channels, listeners, nextChannel, Pending(), l);
      listeners := listeners[l := listener.(queue := listener.queue[1..], queueSize := listener.queueSize - 1)];
      channels := channels + [c];
      place := place[c := -1];
    }

    /** The first listener for a host and port. */
    method FindListener(host: bytes, port: int) returns (l: nat)
      ensures l == FirstFor(listeners, host, port)
    {
      l := 0;
      while l < |listeners| && (listeners[l].host != host || listeners[l].port != port)
        invariant l <= |listeners| && forall m :: 0 <= m < l ==> listeners[m].host != host || listeners[m].port != port
      {
        l := l + 1;
      }
      FirstForAt(listeners, host, port, l);
    }

    /** The refusal of a connection. It belongs to no channel, so that the trace does not show it. */
    method Refuse(answer: SendAnswer) returns (rc: int)
      modifies this`asking
      ensures rc == SendCode(answer) && asking == if answer == WouldBlock then Refusing else NotAsked
    {
      asking := if answer == WouldBlock then Refusing else NotAsked;
      rc := SendCode(answer);
    }

    /** The confirmation of a connection, attempted again. The code looks for the channel in a variable that it
        has just cleared, and links nothing. */
    method ConfirmAgain(answer: SendAnswer) returns (rc: int)
      requires Valid() && asking.Confirming?
      modifies this`wire, this`asking
      ensures Valid() && rc == SendCode(answer) && Table() == ChannelTable.ConfirmAgain(old(Table()), AnswerOf(answer))
      ensures wire == if answer == Accepted then old(wire) + [Outgoing(old(asking).id, old(asking).packet)] else old(wire)
    {
      rc := Send(asking.id, asking.packet, answer);
      if rc != ERROR_EAGAIN {
        asking := NotAsked;
      }
    }

    /** A channel whose confirmation was accepted is queued. */
    method QueueConfirmed(l: nat, id: u32, sender: u32, window: u32, packetSize: u32)
      requires Valid() && l < |listeners| && id !in table
      modifies this`listeners, this`table, this`place
      ensures Valid() && Table() == ChannelTable.Enqueue(old(Table()), l, id)
      ensures Chans() == old(Chans())[id := PeerChan(id, sender, window, packetSize)]
    {
      var c := new Channel(this, ChannelData(id, window, window, packetSize, false, false),
                           ChannelData(sender, WINDOW_DEFAULT, WINDOW_DEFAULT, PACKET_DEFAULT, false, false), Parked(Idle, []));
      Enqueue(l, c);
      Added(c);
    }

    /** Hands out an id. */
    method TakeId() returns (id: u32)
      requires Valid()
      modifies this`nextChannel, this`ledger
      ensures id == old(NewId()) && ledger == old(ledger) + [Opened(id)] && nextChannel == Wrap32(id + 1)
      ensures Chans() == old(Chans())
    {
      id := NextId();
      ledger := ledger + [Opened(id)];
    }

    method SendConfirmation(id: u32, packet: bytes, answer: SendAnswer) returns (rc: int)
      requires Valid() && asking == NotAsked
      modifies this`wire, this`asking
      ensures rc == SendCode(answer) && Chans() == old(Chans())
      ensures wire == if answer == Accepted then old(wire) + [Outgoing(id, packet)] else old(wire)
      ensures asking == if answer == WouldBlock then Confirming(id, packet) else NotAsked
    {
      rc := Send(id, packet, answer);
      if rc == ERROR_EAGAIN {
        asking := Confirming(id, packet);
      }
    }

    /** The first attempt at a confirmation: the channel is queued if it is accepted, and forgotten if not. */
    method QueueOn(l: nat, id: u32, sender: u32, window: u32, packetSize: u32, answer: SendAnswer) returns (rc: int)
      requires Valid() && l < |listeners| && id !in table && asking == NotAsked
      modifies this`listeners, this`table, this`place, this`wire, this`asking
      ensures Valid() && rc == SendCode(answer) && Table() == ChannelTable.Confirm(old(Table()), l, id, AnswerOf(answer))
      ensures if answer == Accepted then
                && Chans() == old(Chans())[id := PeerChan(id, sender, window, packetSize)]
                && wire == old(wire) + [Outgoing(id, ConfirmBytes(sender, id))]
              else Chans() == old(Chans()) && wire == old(wire)
    {
      rc := SendConfirmation(id, ConfirmBytes(sender, id), answer);
      assert Chans() == old(Chans());
      if rc == 0 {
        QueueConfirmed(l, id, sender, window, packetSize);
      }
    }

    /** A connection for a listener that is not full. */
    method AnswerWith(l: nat, sender: u32, window: u32, packetSize: u32, answer: SendAnswer) returns (rc: int)
      requires Valid() && l < |listeners| && NewId() !in table && asking == NotAsked && !ChannelTable.Full(Table().slots[l])
      modifies this`listeners, this`nextChannel, this`table, this`place, this`wire, this`ledger, this`asking
      ensures Valid() && rc == SendCode(answer)
      ensures Table() == ChannelTable.PeerOpenId(old(Table()), l, AnswerOf(answer))
      ensures Now() == PeerOpen(old(Now()), old(NewId()), sender, window, packetSize, answer)
    {
      hide Layout, Chans;
      ghost var t := Table();
      var id: u32 := TakeId();
      assert Chans() == old(Chans()) && Table() == t.(next := Wrap32(id + 1));
      rc := QueueOn(l, id, sender, window, packetSize, answer);
    }

    /** A connection for the listener at `l`. */
    method AnswerAt(l: nat, sender: u32, window: u32, packetSize: u32, answer: SendAnswer) returns (rc: int)
      requires Valid() && l < |listeners| && NewId() !in table && asking == NotAsked
      modifies this`listeners, this`nextChannel, this`table, this`place, this`wire, this`ledger, this`asking
      ensures Valid() && rc == SendCode(answer)
      ensures Table() == ChannelTable.PeerOpenId(old(Table()), l, AnswerOf(answer))
      ensures Now() == if ChannelTable.Full(old(Table()).slots[l]) then old(Now())
                       else PeerOpen(old(Now()), old(NewId()), sender, window, packetSize, answer)
    {
      assert Slots(listeners)[l] == SlotOf(listeners[l]);
      var listener := listeners[l];
      if listener.queueMaxsize != 0 && listener.queueMaxsize <= listener.queueSize {
        rc := Refuse(answer);
      } else {
        rc := AnswerWith(l, sender, window, packetSize, answer);
      }
    }

    /** A connection asked for anew: it goes to the first listener for its host and port, unless that is full. */
    method AnswerFirst(host: bytes, port: int, sender: u32, window: u32, packetSize: u32, answer: SendAnswer) returns (rc: int)
      requires Valid() && asking == NotAsked && NewId() !in table
      modifies this`listeners, this`nextChannel, this`table, this`place, this`wire, this`ledger, this`asking
      ensures Valid() && rc == SendCode(answer)
      ensures var w, t, l := old(Now()), old(Table()), FirstFor(old(listeners), host, port);
              if l < |old(listeners)| then
                && Table() == ChannelTable.PeerOpenId(t, l, AnswerOf(answer))
                && Now() == if ChannelTable.Full(t.slots[l]) then w else PeerOpen(w, old(NewId()), sender, window, packetSize, answer)
              else Table() == t && Now() == w
    {
      hide Layout, Chans;
      var l := FindListener(host, port);
      if l == |listeners| {
        rc := Refuse(answer);
      } else {
        rc := AnswerAt(l, sender, window, packetSize, answer);
      }
    }

    /** A connection whose confirmation blocked. */
    method AnswerAgain(host: bytes, port: int, answer: SendAnswer) returns (rc: int)
      requires Valid() && asking.Confirming?
      modifies this`wire, this`asking
      ensures rc == SendCode(answer)
      ensures var t, found := old(Table()), FirstFor(listeners, host, port) < |listeners|;
              && Table() == (if found then ChannelTable.ConfirmAgain(t, AnswerOf(answer)) else t.(pending := None))
              && wire == if found && answer == Accepted then old(wire) + [Outgoing(old(asking).id, old(asking).packet)] else old(wire)
    {
      var l := FindListener(host, port);
      if l == |listeners| {
        rc := Refuse(answer);
      } else {
        rc := ConfirmAgain(answer);
      }
    }

    /** `packet_queue_listener`: a connection the peer opens goes to the first listener for its host and port,
        unless that is full, and is queued once its confirmation is accepted. A confirmation that blocks is
        sent again later, but the channel it confirms is forgotten. */
    method QueueListener(host: bytes, port: int, sender: u32, window: u32, packetSize: u32, answer: SendAnswer) returns (rc: int)
      requires Valid() && (asking == NotAsked ==> NewId() !in table)
      modifies this`listeners, this`nextChannel, this`table, this`place, this`wire, this`ledger, this`asking
      ensures Valid() && rc == SendCode(answer)
      ensures var w, t, l := old(Now()), old(Table()), FirstFor(old(listeners), host, port);
              var found := l < |old(listeners)|;
              if old(asking).Confirming? then
                && Table() == (if found then ChannelTable.ConfirmAgain(t, AnswerOf(answer)) else t.(pending := None))
                && Now() == (if found && answer == Accepted then Emit(w, old(asking).id, old(asking).packet) else w)
              else if old(asking).Refusing? || !found then Table() == t && Now() == w
              else
                && Table() == ChannelTable.PeerOpenId(t, l, AnswerOf(answer))
                && Now() == if ChannelTable.Full(t.slots[l]) then w else PeerOpen(w, old(NewId()), sender, window, packetSize, answer)
    {
      hide Layout, Chans;
      if asking.Refusing? {
        rc := Refuse(answer);
        assert Chans() == old(Chans());
      } else if asking.Confirming? {
        rc := AnswerAgain(host, port, answer);
        assert Chans() == old(Chans());
      } else {
        rc := AnswerFirst(host, port, sender, window, packetSize, answer);
      }
    }

    method Enqueue(l: nat, c: Channel)
      requires Valid() && l < |listeners| && c.localId == c.local.id && c.session == this && c.localId !in table
      modifies this`listeners, this`table, this`place
      ensures Valid() && Table() == ChannelTable.Enqueue(old(Table()), l, c.localId)
      ensures table == old(table)[c.localId := c]
    {
      var listener := listeners[l];
      LayoutEnqueue(channels, listeners, place, table.Values, c, l, listener.queueSize + 1);
      ValuesWith(table, c);
      EnqueueAdds(channels, listeners, nextChannel, Pending(), l, c);
      listeners := listeners[l := listener.(queue := listener.queue + [c], queueSize := listener.queueSize + 1)];
      table, place := table[c.localId := c], place[c := l];
    }
  }

  class Channel {
    const localId: u32
    var session: Session
    var local: ChannelData
    var remote: ChannelData
    var merge: bool
    var readAvail: nat
    var read: State
    var adjust: Adjusting
    var flush: Flushing
    var write: Writing
    var close: Parked
    var process: Parked
    var opening: Parked

    /** A channel as it is allocated: everything zero but its two directions and the state of its opening. */
    constructor (session: Session, local: ChannelData, remote: ChannelData, opening: Parked)
      ensures this.session == session && this.local == local && this.remote == remote
      ensures Snap() == NewChan(local, remote, opening) && localId == local.id
    {
      localId := local.id;
      this.session, this.local, this.remote, merge := session, local, remote, false;
      readAvail, read, adjust := 0, Idle, Adjusting(Idle, 0, [0, 0, 0, 0, 0, 0, 0, 0, 0]);
      flush, write, close, process := Flushing(Idle, 0, 0), Writing(Idle, [], 0), Parked(Idle, []), Parked(Idle, []);
      this.opening := opening;
    }

    ghost function Snap(): Chan
      reads this
    {
      Chan(local, remote, merge, readAvail, read, adjust, flush, write, close, process, opening)
    }

    /** Data or extended data for this channel, long enough to have a header. */
    method AddData(m: Message)
      requires IsDataMessage(m)
      modifies this, session`packets
      ensures session == old(session) && Snap() == Receive(old(Snap()), m)
      ensures session.packets == old(session.packets) + QueuedFor(old(Snap()), m)
    {
      var head, datalen := HeadOf(m[0]), |m|;
      if remote.packetSize < datalen - head {
        datalen := remote.packetSize + head;
      }
      if remote.window <= readAvail {
        return;
      }
      remote := remote.(eof := false);
      if readAvail + datalen - head > remote.window {
        datalen := remote.window - readAvail + head;
      }
      readAvail := readAvail + (datalen - head);
      session.packets := session.packets + [RawPacket(m, datalen, head)];
    }

    /** A message for this channel: data, EOF, CLOSE or a window adjustment. */
    method AddMessage(m: Message)
      requires IsFor(local.id, m)
      modifies this, session`packets, session`ledger
      ensures session == old(session) && Snap() == Receive(old(Snap()), m)
      ensures session.packets == old(session.packets) + QueuedFor(old(Snap()), m)
      ensures session.ledger == old(session.ledger) + EntriesFor(old(Snap()), local.id, m)
    {
      session.ledger := session.ledger + EntriesFor(Snap(), local.id, m);
      if HeadOf(m[0]) > 0 {
        AddData(m);
      } else if m[0] == MSG_CHANNEL_EOF {
        remote := remote.(eof := true);
      } else if m[0] == MSG_CHANNEL_CLOSE {
        remote := remote.(close := true, eof := true);
      } else {
        local := local.(window := Wrap32(local.window + NtohU32(m[5..])));
      }
    }

    ghost predicate Ready()
      reads this, session`channels, session`listeners, session`table, session`place, session.table.Values
    {
      session.Valid() && session.Has(this)
    }

    /** Nothing has changed but this channel, the trace of what was sent, by `a`, and the queue. */
    twostate lemma Acted(a: Act)
      requires old(Ready()) && session == old(session) && session.table == old(session.table) && Snap() == a.c
      requires local.id == old(local.id) && session.heard == old(session.heard) && session.ledger == old(session.ledger)
      requires session.wire == Sending(old(session.wire), local.id, a)
      requires forall d :: d in session.table.Values && d != this ==> unchanged(d)
      requires session.channels == old(session.channels) && session.listeners == old(session.listeners)
      requires session.place == old(session.place)
      ensures Ready()
      ensures session.Now() == Apply(old(session.Now()).(packets := session.packets), local.id, a)
    {
      session.OneChanged(this);
    }

    // ---- The receive window ----

    /** `_libssh2_channel_receive_window_adjust`. */
    method ReceiveWindowAdjust(adjustment: u32, force: bool, answer: SendAnswer) returns (rc: int)
      modifies this, session`wire
      ensures session == old(session)
      ensures var a := Adjust(old(Snap()), adjustment, force, answer);
              Snap() == a.c && rc == a.rc && session.wire == Sending(old(session.wire), local.id, a)
    {
      var amount := adjustment;
      if adjust.state == Idle {
        if !force && Wrap32(amount + adjust.queue) < MINADJUST {
          adjust := adjust.(queue := Wrap32(adjust.queue + amount));
          return 0;
        }
        if amount == 0 && adjust.queue == 0 {
          return 0;
        }
        amount := Wrap32(amount + adjust.queue);
        adjust := Adjusting(Created, 0, AdjustBytes(remote.id, amount));
      }
      rc := session.Send(local.id, adjust.packet, answer);
      if rc == ERROR_EAGAIN {
        return;
      } else if rc != 0 {
        adjust := adjust.(queue := amount);
        return ERROR_SOCKET_SEND;
      }
      remote := remote.(window := Wrap32(remote.window + amount));
      adjust := adjust.(state := Idle);
    }

    /** `libssh2_channel_window_read_ex`: the window, and the octets queued for this channel. */
    method WindowRead() returns (window: u32, available: nat)
      ensures window == remote.window
      ensures available == QueuedBytes(local.id, session.packets)
    {
      available := 0;
      var packets := session.packets;
      for i := 0 to |packets|
        invariant available + QueuedBytes(local.id, packets[i..]) == QueuedBytes(local.id, packets)
      {
        assert packets[i..][1..] == packets[i + 1..];
        var p := packets[i];
        if (p.data[0] == MSG_CHANNEL_DATA || p.data[0] == MSG_CHANNEL_EXTENDED_DATA) && p.len >= 5 && NtohU32(p.data[1..]) == local.id {
          available := available + (p.len - p.head);
        }
      }
      window := remote.window;
    }

    // ---- Reading ----

    method PrepareRead(buflen: nat, answer: SendAnswer) returns (rc: int)
      modifies this, session`wire
      ensures session == old(session)
      ensures var a := ReadPrepare(old(Snap()), buflen, answer);
              Snap() == a.c && rc == a.rc && session.wire == Sending(old(session.wire), local.id, a)
    {
      hide Adjust;
      if read == Jump1 || remote.window < remote.windowInitial / 4 * 3 + buflen {
        var adjustment := Wrap32(remote.windowInitial + buflen - remote.window);
        if adjustment < MINADJUST {
          adjustment := MINADJUST;
        }
        read := Jump1;
        rc := ReceiveWindowAdjust(adjustment, false, answer);
        if rc != 0 {
          return;
        }
        read := Idle;
      }
      return 0;
    }

    /** Octets that leave the queue are no longer available, and the window shrinks by as much. */
    method TakeOff(n: nat)
      modifies this
      ensures session == old(session) && Snap() == Consume(old(Snap()), n)
    {
      readAvail := Wrap64(readAvail - n);
      remote := remote.(window := Wrap32(remote.window - n));
    }

    /** The last part of a read, once the transport has been drained. */
    method FinishRead(stream: i32, buflen: nat, readEnd: ReadEnd) returns (rc: int, data: bytes)
      modifies this, session`packets
      ensures session == old(session)
      ensures var f, c := By(Reader(old(local.id), stream, old(merge))), old(Snap());
              && data == Taken(f, old(session.packets), buflen)
              && session.packets == AfterRead(f, old(session.packets), buflen)
              && Snap() == (if data == [] then c else Consume(c, |data|))
              && rc == if data != [] then |data|
                       else if c.remote.eof || c.remote.close || readEnd != ERROR_EAGAIN then 0
                       else ERROR_EAGAIN
    {
      data := session.TakeQueued(Reader(local.id, stream, merge), buflen);
      if data == [] {
        rc := if remote.eof || remote.close || readEnd != ERROR_EAGAIN then 0 else ERROR_EAGAIN;
      } else {
        TakeOff(|data|);
        rc := |data|;
      }
    }

    method ReadOn(stream: i32, buflen: nat, env: Env) returns (rc: int, data: bytes)
      requires Ready()
      modifies session`packets, session`wire, session`heard, session`ledger, session.table.Values
      ensures session == old(session) && Ready()
      ensures var o := ChannelSpec.ReadOn(old(session.Now()), local.id, stream, buflen, env);
              session.Now() == o.w && rc == o.rc && data == o.data
    {
      hide Layout;
      session.Receive(env.arrivals);
      if env.readEnd < 0 && env.readEnd != ERROR_EAGAIN {
        return env.readEnd, [];
      }
      assert session.Now().chans[local.id] == Snap();
      assert session.Now().chans[local.id := Snap()] == session.Now().chans;
      ghost var c := Snap();
      label Drained:
      rc, data := FinishRead(stream, buflen, env.readEnd);
      Acted@Drained(Act(if data == [] then c else Consume(c, |data|), 0, None));
    }

    /** `_libssh2_channel_read`. */
    method Read(stream: i32, buflen: nat, env: Env) returns (rc: int, data: bytes)
      requires Ready()
      modifies session`packets, session`wire, session`heard, session`ledger, session.table.Values
      ensures session == old(session) && Ready()
      ensures var o := ReadCall(old(session.Now()), local.id, stream, buflen, env);
              session.Now() == o.w && rc == o.rc && data == o.data
    {
      hide Layout;
      data := [];
      ghost var a := ReadPrepare(Snap(), buflen, env.send);
      rc := PrepareRead(buflen, env.send);
      Acted(a);
      if rc == 0 {
        rc, data := ReadOn(stream, buflen, env);
      }
    }

    // ---- Flushing ----

    method FinishFlush(answer: SendAnswer) returns (rc: int)
      modifies this, session`wire
      ensures session == old(session)
      ensures var a := FlushFinish(old(Snap()), answer);
              Snap() == a.c && rc == a.rc && session.wire == Sending(old(session.wire), local.id, a)
    {
      TakeOff(flush.bytes);
      if flush.refund != 0 {
        rc := ReceiveWindowAdjust(Wrap32(flush.refund), true, answer);
        if rc == ERROR_EAGAIN {
          return;
        }
      }
      flush := flush.(state := Idle);
      rc := AsInt32(Wrap32(flush.bytes));
    }

    /** The whole of a flush, on the fields it touches. */
    method DoFlush(stream: i32, answer: SendAnswer) returns (rc: int)
      modifies this, session`packets, session`wire
      ensures session == old(session)
      ensures var c, f := old(Snap()), PacketQueue.Flush(old(local.id), stream, old(session.packets));
              var a := FlushAct(c, f, answer);
              && session.packets == (if c.flush.state == Idle then f.left else old(session.packets))
              && Snap() == a.c && rc == a.rc && session.wire == Sending(old(session.wire), local.id, a)
    {
      if flush.state == Idle {
        var bytes, refund, cut := session.Discard(local.id, stream);
        flush := Flushing(if cut then Idle else Created, refund, bytes);
        if cut {
          return ERROR_PROTO;
        }
      }
      rc := FinishFlush(answer);
    }

    /** The same, seen from the session. */
    method FlushNow(stream: i32, answer: SendAnswer) returns (rc: int)
      requires Ready()
      modifies session`packets, session`wire, session.table.Values
      ensures session == old(session) && Ready()
      ensures var f := PacketQueue.Flush(old(local.id), stream, old(session.packets));
              var w, a := old(session.Now()), FlushAct(old(Snap()), f, answer);
              && session.Now() == Apply(if old(flush.state) == Idle then w.(packets := f.left) else w, local.id, a)
              && rc == a.rc
    {
      hide Layout;
      ghost var w, c, f := session.Now(), Snap(), PacketQueue.Flush(local.id, stream, session.packets);
      ghost var a := FlushAct(c, f, answer);
      rc := DoFlush(stream, answer);
      Acted(a);
      assert w.(packets := session.packets) == if c.flush.state == Idle then w.(packets := f.left) else w;
    }

    /** `_libssh2_channel_flush`. */
    method Flush(stream: i32, env: Env) returns (rc: int)
      requires Ready()
      modifies session`packets, session`wire, session.table.Values
      ensures session == old(session) && Ready()
      ensures var o := FlushCall(old(session.Now()), local.id, stream, env); session.Now() == o.w && rc == o.rc
    {
      assert session.Now().chans[local.id] == Snap();
      rc := FlushNow(stream, env.send);
    }

    // ---- Writing ----

    method Park(stream: i32, buflen: nat)
      modifies this
      ensures session == old(session) && Snap() == ChannelSpec.Park(old(Snap()), stream, buflen)
    {
      var n := if buflen > WRITE_LIMIT then WRITE_LIMIT else buflen;
      if n > local.window {
        n := local.window;
      }
      if n > local.packetSize {
        n := local.packetSize;
      }
      write := Writing(Created, DataHeader(remote.id, stream, n), n);
    }

    method SendParked(buf: bytes, answer: SendAnswer) returns (rc: int)
      requires write.len <= |buf|
      modifies this, session`wire
      ensures session == old(session)
      ensures var a := ChannelSpec.SendParked(old(Snap()), buf, answer);
              Snap() == a.c && rc == a.rc && session.wire == Sending(old(session.wire), local.id, a)
    {
      rc := session.Send(local.id, write.packet + buf[..write.len], answer);
      if rc == ERROR_EAGAIN {
        return;
      } else if rc != 0 {
        write := write.(state := Idle);
        return;
      }
      local := local.(window := Wrap32(local.window - write.len));
      write := write.(state := Idle);
      rc := write.len;
    }

    /** The half of a write that leaves the idle state. */
    method WriteOn(stream: i32, buf: bytes, answer: SendAnswer) returns (rc: int)
      requires Ready()
      modifies session`wire, session.table.Values
      ensures session == old(session) && Ready()
      ensures var a := ChannelSpec.SendParked(ChannelSpec.Park(old(Snap()), stream, |buf|), buf, answer);
              session.Now() == Apply(old(session.Now()), local.id, a) && rc == a.rc
    {
      ghost var a := ChannelSpec.SendParked(ChannelSpec.Park(Snap(), stream, |buf|), buf, answer);
      Park(stream, |buf|);
      rc := SendParked(buf, answer);
      Acted(a);
    }

    /** `_libssh2_channel_write`. */
    method Write(stream: i32, buf: bytes, env: Env) returns (rc: int)
      requires Ready() && (write.state == Created ==> write.len <= |buf|)
      modifies session`packets, session`wire, session`heard, session`ledger, session.table.Values
      ensures session == old(session) && Ready()
      ensures var o := WriteCall(old(session.Now()), local.id, stream, buf, env); session.Now() == o.w && rc == o.rc
    {
      assert session.Now().chans[local.id] == Snap();
      if write.state == Idle {
        if local.close {
          return ERROR_CHANNEL_CLOSED;
        } else if local.eof {
          return ERROR_CHANNEL_EOF_SENT;
        }
        session.Receive(env.arrivals);
        assert session.Now().chans[local.id] == Snap();
        if env.readEnd < 0 && env.readEnd != ERROR_EAGAIN {
          return env.readEnd;
        }
        if local.window == 0 {
          return if env.readEnd == ERROR_EAGAIN then env.readEnd else 0;
        }
        rc := WriteOn(stream, buf, env.send);
      } else if write.state == Created {
        ghost var a := ChannelSpec.SendParked(Snap(), buf, env.send);
        rc := SendParked(buf, env.send);
        Acted(a);
      } else {
        rc := ERROR_INVAL;
      }
    }

    // ---- Extended data ----

    /** `_libssh2_channel_extended_data`, in the modes that keep extended data apart (`on` is false) and merge it. */
    method ExtendedData(on: bool)
      requires Ready()
      modifies session.table.Values
      ensures session == old(session) && Ready()
      ensures session.Now() == Apply(old(session.Now()), local.id, SetMerge(old(Snap()), on))
    {
      ghost var a := SetMerge(Snap(), on);
      merge := on;
      Acted(a);
    }

    // ---- Ending ----

    method DoSendEof(answer: SendAnswer) returns (rc: int)
      modifies this, session`wire
      ensures session == old(session)
      ensures var a := ChannelSpec.SendEof(old(Snap()), answer);
              Snap() == a.c && rc == a.rc && session.wire == Sending(old(session.wire), local.id, a)
    {
      rc := session.Send(local.id, EofBytes(remote.id), answer);
      if rc == ERROR_EAGAIN {
        return;
      } else if rc != 0 {
        return ERROR_SOCKET_SEND;
      }
      local := local.(eof := true);
    }

    /** `channel_send_eof`. */
    method SendEof(env: Env) returns (rc: int)
      requires Ready()
      modifies session`wire, session.table.Values
      ensures session == old(session) && Ready()
      ensures var o := EofCall(old(session.Now()), local.id, env); session.Now() == o.w && rc == o.rc
    {
      ghost var a := ChannelSpec.SendEof(Snap(), env.eofSend);
      rc := DoSendEof(env.eofSend);
      Acted(a);
    }

    method SendClose(before: int, answer: SendAnswer) returns (rc: int)
      modifies this, session`wire
      ensures session == old(session)
      ensures var a := ChannelSpec.SendClose(old(Snap()), before, answer);
              Snap() == a.c && rc == a.rc && session.wire == Sending(old(session.wire), local.id, a)
    {
      rc := before;
      if close.state == Idle {
        close := Parked(Created, CloseBytes(remote.id));
      }
      if close.state == Created {
        rc := session.Send(local.id, close.packet, answer);
        if rc == 0 {
          close := close.(state := Sent);
        }
      }
    }

    /** The wait for the peer's CLOSE, for as long as the connection lasts. */
    method AwaitClose(arrivals: seq<Message>, readEnd: ReadEnd, connected: bool) returns (rc: int)
      requires Ready()
      modifies session`packets, session`wire, session`heard, session`ledger, session.table.Values
      ensures session == old(session) && Ready()
      ensures var o := if connected then ChannelSpec.AwaitClose(old(session.Now()), local.id, arrivals, readEnd)
                       else Outcome(old(session.Now()), 0);
              session.Now() == o.w && rc == o.rc
    {
      hide Layout;
      if !connected {
        return 0;
      }
      var i := 0;
      while i < |arrivals|
        invariant session == old(session) && Ready() && i <= |arrivals| && local.id == old(local.id)
        invariant ChannelSpec.AwaitClose(session.Now(), local.id, arrivals[i..], readEnd) ==
                  ChannelSpec.AwaitClose(old(session.Now()), local.id, arrivals, readEnd)
      {
        assert session.Now().chans[local.id] == Snap();
        if remote.close {
          return 0;
        }
        assert arrivals[i..][1..] == arrivals[i + 1..];
        var added := session.Add(arrivals[i], Accepted);
        if arrivals[i][0] != 0 {
          return arrivals[i][0];
        }
        i := i + 1;
      }
      assert session.Now().chans[local.id] == Snap();
      rc := if remote.close then 0 else readEnd;
    }

    method BeginClose(before: int, answer: SendAnswer) returns (rc: int)
      requires Ready()
      modifies session`wire, session.table.Values
      ensures session == old(session) && Ready()
      ensures var a := ChannelSpec.SendClose(old(Snap()), before, answer);
              && session.Now() == Apply(old(session.Now()), local.id, a) && rc == a.rc
              && session.Now().chans[local.id] == Snap() == a.c
    {
      ghost var a := ChannelSpec.SendClose(Snap(), before, answer);
      rc := SendClose(before, answer);
      Acted(a);
    }

    method EndClose()
      requires Ready()
      modifies session.table.Values
      ensures session == old(session) && Ready()
      ensures session.Now() == WithChan(old(session.Now()), local.id, MarkClosed(old(Snap())))
    {
      ghost var c := MarkClosed(Snap());
      local := local.(close := true);
      close := close.(state := Idle);
      Acted(Act(c, 0, None));
    }

    /** A close once its EOF is out of the way with code `before`. */
    method CloseOn(before: int, env: Env) returns (rc: int)
      requires Ready()
      modifies session`packets, session`wire, session`heard, session`ledger, session.table.Values
      ensures session == old(session) && Ready()
      ensures var o := ChannelSpec.CloseOn(old(session.Now()), local.id, before, env); session.Now() == o.w && rc == o.rc
    {
      hide Layout, ChannelSpec.AwaitClose, ChannelSpec.SendClose;
      assert session.Now().chans[local.id] == Snap();
      rc := BeginClose(before, env.send);
      if close.state == Sent && rc == 0 {
        rc := AwaitClose(env.arrivals, env.readEnd, env.connected);
      }
      assert session.Now().chans[local.id] == Snap();
      if rc != ERROR_EAGAIN {
        EndClose();
        rc := Min(rc, 0);
      }
    }

    /** A second close only forgets that the first was under way. */
    method CloseAgain()
      requires Ready()
      modifies session.table.Values
      ensures session == old(session) && Ready()
      ensures var c := old(Snap()); session.Now() == WithChan(old(session.Now()), local.id, c.(close := c.close.(state := Idle)))
    {
      ghost var c := Snap();
      close := close.(state := Idle);
      Acted(Act(c.(close := c.close.(state := Idle)), 0, None));
    }

    /** `_libssh2_channel_close`. */
    method Close(env: Env) returns (rc: int)
      requires Ready()
      modifies session`packets, session`wire, session`heard, session`ledger, session.table.Values
      ensures session == old(session) && Ready()
      ensures var o := CloseCall(old(session.Now()), local.id, env); session.Now() == o.w && rc == o.rc
    {
      ghost var w, c := session.Now(), Snap();
      assert w.chans[local.id] == c && w.chans[local.id := c] == w.chans;
      if local.close {
        CloseAgain();
        return 0;
      }
      rc := 0;
      if !local.eof {
        rc := SendEof(env);
      }
      assert session.Now() == Apply(w, local.id, EofBeforeClose(c, env.eofSend)) && rc == EofBeforeClose(c, env.eofSend).rc;
      if rc != ERROR_EAGAIN {
        rc := CloseOn(rc, env);
      }
    }

    // ---- Process requests ----

    method SendStart(request: Text, message: Option<bytes>, answer: SendAnswer) returns (rc: int)
      modifies this, session`wire
      ensures session == old(session)
      ensures var a := ChannelSpec.SendStart(old(Snap()), request, message, answer);
              Snap() == a.c && rc == a.rc && session.wire == Sending(old(session.wire), local.id, a)
    {
      if process.state == Idle {
        process := Parked(Created, RequestBytes(remote.id, request, message));
      }
      rc := 0;
      if process.state == Created {
        rc := session.Send(local.id, process.packet + MessageOf(message), answer);
        if rc == ERROR_EAGAIN {
          return;
        } else if rc != 0 {
          process := Parked(End, []);
          return;
        }
        process := Parked(Sent, []);
      }
    }

    method AwaitStart(reply: Reply) returns (rc: int)
      modifies this
      ensures session == old(session)
      ensures var a := ChannelSpec.AwaitStart(old(Snap()), reply); Snap() == a.c && rc == a.rc
    {
      if process.state == Sent {
        match reply
        case NoReplyYet =>
          return ERROR_EAGAIN;
        case NoReply(error) =>
          process := process.(state := End);
          return error;
        case Code(code) =>
          process := process.(state := End);
          if code == MSG_CHANNEL_SUCCESS {
            return 0;
          }
      }
      rc := ERROR_CHANNEL_REQUEST_DENIED;
    }

    method AnswerStart(reply: Reply) returns (rc: int)
      requires Ready()
      modifies session.table.Values
      ensures session == old(session) && Ready()
      ensures var a := ChannelSpec.AwaitStart(old(Snap()), reply);
              session.Now() == Apply(old(session.Now()), local.id, a) && rc == a.rc
    {
      ghost var a := ChannelSpec.AwaitStart(Snap(), reply);
      rc := AwaitStart(reply);
      Acted(a);
    }

    /** The second half of a startup: while it waits for the reply it reads the transport. */
    method EndStart(env: Env) returns (rc: int)
      requires Ready()
      modifies session`packets, session`wire, session`heard, session`ledger, session.table.Values
      ensures session == old(session) && Ready()
      ensures var o := StartReply(old(session.Now()), local.id, env); session.Now() == o.w && rc == o.rc
    {
      assert session.Now().chans[local.id] == Snap();
      if process.state == Sent {
        session.Receive(env.arrivals);
      }
      assert session.Now().chans[local.id] == Snap();
      rc := AnswerStart(env.reply);
    }

    /** The first half of a startup, seen from the session. */
    method BeginStart(request: Text, message: Option<bytes>, answer: SendAnswer) returns (rc: int)
      requires Ready()
      modifies session`wire, session.table.Values
      ensures session == old(session) && Ready()
      ensures var a := ChannelSpec.SendStart(old(Snap()), request, message, answer);
              session.Now() == Apply(old(session.Now()), local.id, a) && rc == a.rc && Snap() == a.c
    {
      ghost var a := ChannelSpec.SendStart(Snap(), request, message, answer);
      rc := SendStart(request, message, answer);
      Acted(a);
    }

    /** `_libssh2_channel_process_startup`. */
    method ProcessStartup(request: Text, message: Option<bytes>, env: Env) returns (rc: int)
      requires Ready()
      modifies session`packets, session`wire, session`heard, session`ledger, session.table.Values
      ensures session == old(session) && Ready()
      ensures var o := StartCall(old(session.Now()), local.id, request, message, env); session.Now() == o.w && rc == o.rc
    {
      assert session.Now().chans[local.id] == Snap();
      if process.state == End {
        return ERROR_BAD_USE;
      }
      rc := BeginStart(request, message, env.send);
      if rc == 0 {
        rc := EndStart(env);
      }
    }

    // ---- Opening ----

    method SendOpen(message: bytes, answer: SendAnswer) returns (rc: int)
      modifies this, session`wire
      ensures session == old(session)
      ensures var a := ChannelSpec.SendOpen(old(Snap()), message, answer);
              Snap() == a.c && rc == a.rc && session.wire == Sending(old(session.wire), local.id, a)
    {
      rc := 0;
      if opening.state == Created {
        rc := session.Send(local.id, opening.packet + message, answer);
        if rc == 0 {
          opening := opening.(state := Sent);
        }
      }
    }

    method AwaitOpen(reply: OpenReply) returns (rc: int)
      modifies this
      ensures session == old(session)
      ensures var a := ChannelSpec.AwaitOpen(old(Snap()), reply); Snap() == a.c && rc == a.rc
    {
      match reply
      case Unanswered => rc := ERROR_EAGAIN;
      case NoAnswer(error) => rc := error;
      case Response(p) =>
        if p[0] == MSG_CHANNEL_OPEN_CONFIRMATION {
          if |p| < 17 {
            return ERROR_PROTO;
          }
          remote := remote.(id := NtohU32(p[5..]));
          local := local.(window := NtohU32(p[9..]), windowInitial := NtohU32(p[9..]), packetSize := NtohU32(p[13..]));
          opening := Parked(Idle, []);
          return 0;
        }
        rc := ERROR_CHANNEL_FAILURE;
    }

    /** The request of an opening, seen from the session. */
    method RequestOpen(message: bytes, answer: SendAnswer) returns (rc: int)
      requires Ready()
      modifies session`wire, session.table.Values
      ensures session == old(session) && Ready()
      ensures var a := ChannelSpec.SendOpen(old(Snap()), message, answer);
              session.Now() == Apply(old(session.Now()), local.id, a) && rc == a.rc
    {
      ghost var a := ChannelSpec.SendOpen(Snap(), message, answer);
      rc := SendOpen(message, answer);
      Acted(a);
    }

    /** The reply to an opening, seen from the session. */
    method AnswerOpen(reply: OpenReply) returns (rc: int)
      requires Ready()
      modifies session.table.Values
      ensures session == old(session) && Ready()
      ensures var a := ChannelSpec.AwaitOpen(old(Snap()), reply);
              session.Now() == Apply(old(session.Now()), local.id, a) && rc == a.rc
    {
      ghost var a := ChannelSpec.AwaitOpen(Snap(), reply);
      rc := AwaitOpen(reply);
      Acted(a);
    }

    /** One attempt at an opening: the request is sent, if it was not yet, and the reply awaited. */
    method TryOpen(message: bytes, env: Env) returns (rc: int)
      requires Ready()
      modifies session`packets, session`wire, session`heard, session`ledger, session.table.Values
      ensures session == old(session) && Ready()
      ensures var o := OpenTry(old(session.Now()), localId, message, env); session.Now() == o.w && rc == o.rc
    {
      assert session.Now().chans[localId] == Snap();
      rc := RequestOpen(message, env.send);
      if rc == 0 {
        session.Receive(env.arrivals);
        assert session.Now().chans[localId] == Snap();
        rc := AnswerOpen(env.openReply);
      }
    }

    /** The opening of a listed channel goes on; a channel that fails to open is unlinked again. */
    method ContinueOpen(message: bytes, env: Env) returns (rc: int)
      requires Ready()
      modifies session`channels, session`listeners, session`table, session`place
      modifies session`packets, session`wire, session`heard, session`ledger, session.table.Values
      ensures session == old(session) && session.Valid()
      ensures var o := OpenOn(old(session.Now()), localId, message, env); session.Now() == o.w && rc == o.rc
      ensures if rc == 0 || rc == ERROR_EAGAIN then session.Table() == old(session.Table()) && session.Has(this)
              else session.Table() == ChannelTable.FreeId(old(session.Table()), localId)
    {
      hide Layout, Session.Chans;
      rc := TryOpen(message, env);
      if rc != 0 && rc != ERROR_EAGAIN {
        Vanish();
      }
    }

    /** `_libssh2_channel_free`. */
    method Free(env: Env) returns (rc: int)
      requires Ready()
      modifies session`channels, session`listeners, session`table, session`place
      modifies session`packets, session`wire, session`heard, session`ledger, session.table.Values
      ensures session == old(session) && session.Valid()
      ensures var o := FreeCall(old(session.Now()), localId, env); session.Now() == o.w && rc == o.rc
      ensures session.Table() == if rc == 0 then ChannelTable.FreeId(old(session.Table()), localId) else old(session.Table())
    {
      assert session.Now().chans[localId] == Snap();
      if !local.close && env.connected {
        rc := Close(env);
        if rc == ERROR_EAGAIN {
          return;
        }
        assert session.Now().chans[localId] == Snap();
      }
      Vanish();
      rc := 0;
    }

    /** The channel leaves the session, and with it the data queued for it. */
    method Vanish()
      requires Ready()
      modifies session`packets, session`channels, session`listeners, session`table, session`place
      ensures session == old(session) && session.Valid() && session.Now() == Remove(old(session.Now()), localId)
      ensures session.Table() == ChannelTable.FreeId(old(session.Table()), localId)
    {
      hide Layout;
      assert session.Now().chans[localId] == Snap();
      session.Clear(localId);
      session.Unlink(this);
    }
  }
}
