/**
 Which channel ids a session has in use: those of its own list, those queued on its listeners, and
 the one of a peer's request whose confirmation is still waiting to be sent.
 */
module ChannelTable {
  import opened Bytes

  /** A listener: the ids of its pending connections, the size it counts, and the size it allows
      (0 for no limit). */
  datatype Slot = Slot(ids: seq<u32>, size: int, limit: int)

  datatype Table = Table(channels: seq<u32>, slots: seq<Slot>, next: u32, pending: Option<u32>)

  function Count(ids: seq<u32>, x: u32): nat {
    if ids == [] then 0 else (if ids[0] == x then 1 else 0) + Count(ids[1..], x)
  }

  function CountQueued(slots: seq<Slot>, x: u32): nat {
    if slots == [] then 0 else Count(slots[0].ids, x) + CountQueued(slots[1..], x)
  }

  /** How often an id is listed: in the session's own list, or in a listener's queue. */
  function Listings(t: Table, x: u32): nat {
    Count(t.channels, x) + CountQueued(t.slots, x)
  }

  /** How often an id is in use. */
  function Uses(t: Table, x: u32): nat {
    Listings(t, x) + if t.pending == Some(x) then 1 else 0
  }

  ghost predicate Unique(t: Table) {
    forall x: u32 :: Uses(t, x) <= 1
  }

  ghost predicate Below(t: Table, n: nat) {
    forall x: u32 :: Uses(t, x) > 0 ==> x < n
  }

  lemma {:induction false} CountOfConcat(a: seq<u32>, b: seq<u32>, x: u32)
    ensures Count(a + b, x) == Count(a, x) + Count(b, x)
  {
    if a == [] {
      assert a + b == b;
    } else {
      CountOfConcat(a[1..], b, x);
      assert (a + b)[0] == a[0] && (a + b)[1..] == a[1..] + b;
    }
  }

  lemma CountOfAppend(a: seq<u32>, id: u32, x: u32)
    ensures Count(a + [id], x) == Count(a, x) + if x == id then 1 else 0
  {
    CountOfConcat(a, [id], x);
    assert [id][1..] == [];
  }

  lemma {:induction false} CountIsMembership(ids: seq<u32>, x: u32)
    ensures Count(ids, x) > 0 <==> x in ids
  {
    if ids != [] {
      CountIsMembership(ids[1..], x);
    }
  }

  // ---- Allocation ----

  /** `_libssh2_channel_nextid`: the counter, unless a listed channel has a larger id. */
  function NextId(channels: seq<u32>, next: u32): u32 {
    if channels == [] then next
    else
      var front := NextId(channels[..|channels| - 1], next);
      if channels[|channels| - 1] > front then channels[|channels| - 1] else front
  }

  lemma {:induction false} NextIdIsLargest(channels: seq<u32>, next: u32)
    ensures NextId(channels, next) >= next && forall x :: x in channels ==> x <= NextId(channels, next)
    ensures NextId(channels, next) == next || NextId(channels, next) in channels
  {
    if channels != [] {
      var front, last := channels[..|channels| - 1], channels[|channels| - 1];
      NextIdIsLargest(front, next);
      assert channels == front + [last];
    }
  }

  /** The id allocated is new to the session's list if and only if every listed id is below the counter:
      once the counter has wrapped, the id handed out can be one in use. */
  lemma NextIdIsFreshIff(channels: seq<u32>, next: u32)
    ensures NextId(channels, next) !in channels <==> forall x :: x in channels ==> x < next
  {
    NextIdIsLargest(channels, next);
  }

  // ---- What happens to the ids ----

  datatype Answer = Sent | Blocked | Lost

  datatype TableOp =
    | Open
    | PeerOpen(slot: nat, answer: Answer)
    | Resume(answer: Answer)
    | Accept(slot: nat)
    | Free(id: u32)

  predicate Full(s: Slot) {
    s.limit != 0 && s.limit <= s.size
  }

  function Enqueue(t: Table, i: nat, id: u32): Table
    requires i < |t.slots|
  {
    t.(slots := t.slots[i := t.slots[i].(ids := t.slots[i].ids + [id], size := t.slots[i].size + 1)])
  }

  /** A new channel that this side opens. */
  function OpenId(t: Table): Table {
    var id := NextId(t.channels, t.next);
    t.(channels := t.channels + [id], next := Wrap32(id + 1))
  }

  /** The first attempt to confirm a peer's request: the channel is linked if the confirmation is accepted,
      and remembered while it blocks. */
  function Confirm(t: Table, i: nat, id: u32, answer: Answer): Table
    requires i < |t.slots|
  {
    match answer
    case Sent => Enqueue(t, i, id)
    case Blocked => t.(pending := Some(id))
    case Lost => t
  }

  /** A resumed attempt has forgotten the channel: whether the confirmation is accepted or fails, nothing is linked. */
  function ConfirmAgain(t: Table, answer: Answer): Table {
    if answer == Blocked then t else t.(pending := None)
  }

  /** A peer's request for the listener at `i`. */
  function PeerOpenId(t: Table, i: nat, answer: Answer): Table
    requires i < |t.slots|
  {
    if Full(t.slots[i]) then t
    else
      var id := NextId(t.channels, t.next);
      Confirm(t.(next := Wrap32(id + 1)), i, id, answer)
  }

  /** The first pending connection moves from its listener to the session's list. */
  function AcceptId(t: Table, i: nat): Table
    requires i < |t.slots|
  {
    var s := t.slots[i];
    if s.ids == [] then t
    else t.(slots := t.slots[i := s.(ids := s.ids[1..], size := s.size - 1)], channels := t.channels + [s.ids[0]])
  }

  function Without(ids: seq<u32>, id: u32): seq<u32> {
    if ids == [] then [] else if ids[0] == id then ids[1..] else [ids[0]] + Without(ids[1..], id)
  }

  function WithoutIn(slots: seq<Slot>, id: u32): seq<Slot> {
    if slots == [] then []
    else if id in slots[0].ids then [slots[0].(ids := Without(slots[0].ids, id))] + slots[1..]
    else [slots[0]] + WithoutIn(slots[1..], id)
  }

  /** A freed channel leaves the list it is in; a listener it was queued on does not recount. */
  function FreeId(t: Table, id: u32): Table {
    if id in t.channels then t.(channels := Without(t.channels, id)) else t.(slots := WithoutIn(t.slots, id))
  }

  predicate Possible(t: Table, op: TableOp) {
    match op
    case Open => true
    case PeerOpen(i, _) => i < |t.slots| && t.pending == None
    case Resume(_) => t.pending.Some?
    case Accept(i) => i < |t.slots|
    case Free(_) => true
  }

  function TableStep(t: Table, op: TableOp): Table
    requires Possible(t, op)
  {
    match op
    case Open => OpenId(t)
    case PeerOpen(i, answer) => PeerOpenId(t, i, answer)
    case Resume(answer) => ConfirmAgain(t, answer)
    case Accept(i) => AcceptId(t, i)
    case Free(id) => FreeId(t, id)
  }

  /** How many ids an operation allocates. */
  function Allocates(t: Table, op: TableOp): nat
    requires Possible(t, op)
  {
    if op.Open? || (op.PeerOpen? && !Full(t.slots[op.slot])) then 1 else 0
  }

  // ---- What each operation keeps ----

  lemma {:induction false} QueuedUpdate(slots: seq<Slot>, i: nat, s: Slot, x: u32)
    requires i < |slots|
    ensures CountQueued(slots[i := s], x) + Count(slots[i].ids, x) == CountQueued(slots, x) + Count(s.ids, x)
  {
    var after := slots[i := s];
    if i == 0 {
      assert after[1..] == slots[1..];
    } else {
      assert after[1..] == slots[1..][i - 1 := s];
      QueuedUpdate(slots[1..], i - 1, s, x);
    }
  }

  lemma {:induction false} QueuedIsUsed(slots: seq<Slot>, l: nat, x: u32)
    requires l < |slots| && x in slots[l].ids
    ensures CountQueued(slots, x) > 0
  {
    CountIsMembership(slots[0].ids, x);
    if l > 0 {
      QueuedIsUsed(slots[1..], l - 1, x);
    }
  }

  lemma EnqueueCounts(t: Table, i: nat, id: u32, x: u32)
    requires i < |t.slots|
    ensures Listings(Enqueue(t, i, id), x) == Listings(t, x) + if x == id then 1 else 0
  {
    var s := t.slots[i];
    CountOfAppend(s.ids, id, x);
    QueuedUpdate(t.slots, i, s.(ids := s.ids + [id], size := s.size + 1), x);
  }

  lemma ConfirmCounts(t: Table, i: nat, id: u32, answer: Answer, x: u32)
    requires i < |t.slots| && t.pending == None
    ensures Listings(Confirm(t, i, id, answer), x) == Listings(t, x) + if answer == Sent && x == id then 1 else 0
    ensures Uses(Confirm(t, i, id, answer), x) == Uses(t, x) + if answer != Lost && x == id then 1 else 0
  {
    if answer == Sent {
      EnqueueCounts(t, i, id, x);
    }
  }

  /** Accepting a connection leaves exactly the same ids in use. */
  lemma AcceptKeepsIds(t: Table, i: nat, x: u32)
    requires i < |t.slots|
    ensures Uses(AcceptId(t, i), x) == Uses(t, x) && Listings(AcceptId(t, i), x) == Listings(t, x)
  {
    var s := t.slots[i];
    if s.ids != [] {
      QueuedUpdate(t.slots, i, s.(ids := s.ids[1..], size := s.size - 1), x);
      CountOfAppend(t.channels, s.ids[0], x);
    }
  }

  lemma {:induction false} WithoutCounts(ids: seq<u32>, id: u32, x: u32)
    ensures Count(Without(ids, id), x) == Count(ids, x) - if x == id && id in ids then 1 else 0
  {
    if ids != [] && ids[0] != id {
      WithoutCounts(ids[1..], id, x);
      assert ([ids[0]] + Without(ids[1..], id))[1..] == Without(ids[1..], id);
    }
  }

  lemma {:induction false} WithoutInCounts(slots: seq<Slot>, id: u32, x: u32)
    ensures CountQueued(WithoutIn(slots, id), x) ==
            CountQueued(slots, x) - if x == id && CountQueued(slots, id) > 0 then 1 else 0
  {
    if slots != [] {
      CountIsMembership(slots[0].ids, id);
      if id in slots[0].ids {
        WithoutCounts(slots[0].ids, id, x);
        assert WithoutIn(slots, id)[1..] == slots[1..];
      } else {
        WithoutInCounts(slots[1..], id, x);
        assert WithoutIn(slots, id)[1..] == WithoutIn(slots[1..], id);
      }
    }
  }

  lemma {:induction false} WithoutAt(ids: seq<u32>, i: nat)
    requires i < |ids| && forall j :: 0 <= j < i ==> ids[j] != ids[i]
    ensures Without(ids, ids[i]) == ids[..i] + ids[i + 1..]
  {
    if i > 0 {
      WithoutAt(ids[1..], i - 1);
      assert ids[..i] == [ids[0]] + ids[1..][..i - 1];
    }
  }

  lemma {:induction false} WithoutInAt(slots: seq<Slot>, l: nat, id: u32)
    requires l < |slots| && id in slots[l].ids && forall m :: 0 <= m < l ==> id !in slots[m].ids
    ensures WithoutIn(slots, id) == slots[l := slots[l].(ids := Without(slots[l].ids, id))]
  {
    if l > 0 {
      WithoutInAt(slots[1..], l - 1, id);
    }
  }

  /** Freeing a listed channel takes one use of its id away, and nothing else. */
  lemma FreeCounts(t: Table, id: u32, x: u32)
    ensures Listings(FreeId(t, id), x) ==
            Listings(t, x) - if x == id && (id in t.channels || CountQueued(t.slots, id) > 0) then 1 else 0
    ensures Uses(FreeId(t, id), x) - Uses(t, x) == Listings(FreeId(t, id), x) - Listings(t, x)
  {
    WithoutCounts(t.channels, id, x);
    WithoutInCounts(t.slots, id, x);
  }

  /** The ids in use are distinct and were all allocated, in order, from a counter that started at 0. */
  ghost predicate Sound(t: Table, count: nat) {
    count <= TWO_32 && t.next == Wrap32(count) && Unique(t) && Below(t, count)
  }

  lemma NextIdIsAllocated(t: Table, count: nat)
    requires Sound(t, count) && count < TWO_32
    ensures t.next == count && NextId(t.channels, t.next) == count && Uses(t, count) == 0
    ensures Wrap32(count + 1) == if count + 1 == TWO_32 then 0 else count + 1
  {
    forall x | x in t.channels
      ensures x < count
    {
      CountIsMembership(t.channels, x);
      assert Uses(t, x) > 0;
    }
    NextIdIsLargest(t.channels, t.next);
  }

  /** How an operation changes the use of an id. */
  lemma StepCounts(t: Table, op: TableOp, x: u32)
    requires Possible(t, op)
    ensures Listings(TableStep(t, op), x) <= Listings(t, x) + if Allocates(t, op) == 1 && x == NextId(t.channels, t.next) then 1 else 0
    ensures Uses(TableStep(t, op), x) <= Uses(t, x) + if Allocates(t, op) == 1 && x == NextId(t.channels, t.next) then 1 else 0
    ensures op.Accept? ==> Uses(TableStep(t, op), x) == Uses(t, x)
  {
    var id: int := NextId(t.channels, t.next);
    match op
    case Open => CountOfAppend(t.channels, id, x);
    case PeerOpen(i, answer) =>
      if !Full(t.slots[i]) {
        ConfirmCounts(t.(next := Wrap32(id + 1)), i, id, answer, x);
      }
    case Resume(_) =>
    case Accept(i) => AcceptKeepsIds(t, i, x);
    case Free(id) => FreeCounts(t, id, x);
  }

  lemma StepKeepsSound(t: Table, op: TableOp, count: nat)
    requires Sound(t, count) && Possible(t, op) && count + Allocates(t, op) <= TWO_32
    ensures Sound(TableStep(t, op), count + Allocates(t, op))
  {
    if Allocates(t, op) == 1 {
      NextIdIsAllocated(t, count);
    }
    forall x: u32
      ensures Uses(TableStep(t, op), x) <= 1
      ensures Uses(TableStep(t, op), x) > 0 ==> x < count + Allocates(t, op)
    {
      StepCounts(t, op, x);
    }
  }

  // ---- Runs ----

  predicate PossibleRun(t: Table, ops: seq<TableOp>)
    decreases |ops|
  {
    ops == [] || (Possible(t, ops[0]) && PossibleRun(TableStep(t, ops[0]), ops[1..]))
  }

  function TableRun(t: Table, ops: seq<TableOp>): Table
    requires PossibleRun(t, ops)
    decreases |ops|
  {
    if ops == [] then t else TableRun(TableStep(t, ops[0]), ops[1..])
  }

  function AllocatedIn(t: Table, ops: seq<TableOp>): nat
    requires PossibleRun(t, ops)
    decreases |ops|
  {
    if ops == [] then 0 else Allocates(t, ops[0]) + AllocatedIn(TableStep(t, ops[0]), ops[1..])
  }

  /** Channel ids stay unique: over every run of opens, peer opens (confirmed, blocked or lost), accepts
      and frees with at most 2^32 allocations, no id is in use twice, and every id in use is below
      the number of allocations, which is the counter as long as it has not wrapped. */
  lemma {:induction false} IdsStayUnique(t: Table, ops: seq<TableOp>, count: nat)
    requires Sound(t, count) && PossibleRun(t, ops) && count + AllocatedIn(t, ops) <= TWO_32
    ensures Sound(TableRun(t, ops), count + AllocatedIn(t, ops))
    decreases |ops|
  {
    if ops != [] {
      StepKeepsSound(t, ops[0], count);
      IdsStayUnique(TableStep(t, ops[0]), ops[1..], count + Allocates(t, ops[0]));
    }
  }

  /** An id that was handed out and is not listed is never listed again. */
  lemma {:induction false} UnlistedForGood(t: Table, ops: seq<TableOp>, count: nat, id: u32)
    requires Sound(t, count) && PossibleRun(t, ops) && count + AllocatedIn(t, ops) <= TWO_32
    requires id < count && Listings(t, id) == 0
    ensures Listings(TableRun(t, ops), id) == 0
    decreases |ops|
  {
    if ops != [] {
      if Allocates(t, ops[0]) == 1 {
        NextIdIsAllocated(t, count);
      }
      StepCounts(t, ops[0], id);
      StepKeepsSound(t, ops[0], count);
      UnlistedForGood(TableStep(t, ops[0]), ops[1..], count + Allocates(t, ops[0]), id);
    }
  }

  /** A peer's connection is queued if and only if its confirmation is accepted at the first attempt. One whose
      confirmation would block is never listed, however the resumed confirmation is answered: if it is
      accepted in the end, the peer has a channel that this side does not know. */
  lemma QueuedIffAcceptedAtOnce(t: Table, i: nat, answer: Answer, ops: seq<TableOp>, count: nat)
    requires Sound(t, count) && count < TWO_32 && i < |t.slots| && !Full(t.slots[i]) && t.pending == None
    requires var t1 := PeerOpenId(t, i, answer); PossibleRun(t1, ops) && count + 1 + AllocatedIn(t1, ops) <= TWO_32
    ensures var id, t1 := NextId(t.channels, t.next), PeerOpenId(t, i, answer);
            && (answer == Sent <==> id in t1.slots[i].ids)
            && (answer != Sent ==> Listings(TableRun(t1, ops), id) == 0)
  {
    var id: u32 := NextId(t.channels, t.next);
    var t1 := PeerOpenId(t, i, answer);
    NextIdIsAllocated(t, count);
    StepKeepsSound(t, PeerOpen(i, answer), count);
    if answer == Sent {
      assert t1.slots[i].ids == t.slots[i].ids + [id];
    } else {
      ConfirmCounts(t.(next := Wrap32(id + 1)), i, id, answer, id);
      UnlistedForGood(t1, ops, count + 1, id);
      if id in t1.slots[i].ids {
        QueuedIsUsed(t1.slots, i, id);
      }
    }
  }

  /** The bound is sharp: once 2^32 ids have been allocated, the next one is in use already if the
      last one still is. */
  lemma IdsRepeatAfterWrap(t: Table)
    requires t.next == 0 && 0xFFFF_FFFF in t.channels
    ensures !Unique(OpenId(t))
  {
    NextIdIsLargest(t.channels, 0);
    CountOfAppend(t.channels, 0xFFFF_FFFF, 0xFFFF_FFFF);
    CountIsMembership(t.channels, 0xFFFF_FFFF);
    assert Uses(OpenId(t), 0xFFFF_FFFF) >= 2;
  }

  // ---- The counted sizes ----

  /** Every listener counts its queue right. */
  predicate Counted(slots: seq<Slot>) {
    slots == [] || (slots[0].size == |slots[0].ids| && Counted(slots[1..]))
  }

  lemma {:induction false} CountedUpdate(slots: seq<Slot>, i: nat, s: Slot)
    requires i < |slots| && Counted(slots)
    ensures slots[i].size == |slots[i].ids|
    ensures Counted(slots[i := s]) <==> s.size == |s.ids|
  {
    if i == 0 {
      assert slots[i := s][1..] == slots[1..];
    } else {
      CountedUpdate(slots[1..], i - 1, s);
      assert slots[i := s][1..] == slots[1..][i - 1 := s];
    }
  }

  lemma {:induction false} WithoutInCountedIff(slots: seq<Slot>, id: u32)
    requires Counted(slots)
    ensures Counted(WithoutIn(slots, id)) <==> CountQueued(slots, id) == 0
  {
    if slots != [] {
      CountIsMembership(slots[0].ids, id);
      WithoutInCountedIff(slots[1..], id);
      WithoutShortens(slots[0].ids, id);
    }
  }

  lemma {:induction false} WithoutShortens(ids: seq<u32>, id: u32)
    ensures |Without(ids, id)| == if id in ids then |ids| - 1 else |ids|
  {
    if ids != [] {
      WithoutShortens(ids[1..], id);
    }
  }

  /** A listener's count equals the length of its queue, whatever happens, if and only if no channel is
      freed while it is still queued. */
  lemma StepKeepsCountedIff(t: Table, op: TableOp)
    requires Possible(t, op) && Counted(t.slots)
    ensures Counted(TableStep(t, op).slots) <==> !(op.Free? && op.id !in t.channels && CountQueued(t.slots, op.id) > 0)
  {
    match op
    case Open =>
    case PeerOpen(i, answer) =>
      var s := t.slots[i];
      CountedUpdate(t.slots, i, s.(ids := s.ids + [NextId(t.channels, t.next)], size := s.size + 1));
    case Resume(_) =>
    case Accept(i) =>
      var s := t.slots[i];
      if s.ids != [] {
        CountedUpdate(t.slots, i, s.(ids := s.ids[1..], size := s.size - 1));
      }
    case Free(id) => WithoutInCountedIff(t.slots, id);
  }

  // ---- The limits ----

  /** A listener with a limit counts no more than it, and no listener holds more connections than it counts. */
  predicate Limited(slots: seq<Slot>) {
    || slots == []
    || (&& |slots[0].ids| <= slots[0].size && (slots[0].limit > 0 ==> slots[0].size <= slots[0].limit)
        && Limited(slots[1..]))
  }

  lemma {:induction false} LimitedUpdate(slots: seq<Slot>, i: nat, s: Slot)
    requires i < |slots| && Limited(slots)
    ensures |slots[i].ids| <= slots[i].size && (slots[i].limit > 0 ==> slots[i].size <= slots[i].limit)
    ensures Limited(slots[i := s]) <==> |s.ids| <= s.size && (s.limit > 0 ==> s.size <= s.limit)
  {
    if i == 0 {
      assert slots[i := s][1..] == slots[1..];
    } else {
      LimitedUpdate(slots[1..], i - 1, s);
      assert slots[i := s][1..] == slots[1..][i - 1 := s];
    }
  }

  lemma {:induction false} WithoutInLimited(slots: seq<Slot>, id: u32)
    requires Limited(slots)
    ensures Limited(WithoutIn(slots, id))
  {
    if slots != [] {
      WithoutInLimited(slots[1..], id);
      WithoutShortens(slots[0].ids, id);
    }
  }

  lemma StepKeepsLimited(t: Table, op: TableOp)
    requires Possible(t, op) && Limited(t.slots)
    ensures Limited(TableStep(t, op).slots)
  {
    match op
    case Open =>
    case PeerOpen(i, answer) =>
      var s := t.slots[i];
      LimitedUpdate(t.slots, i, s.(ids := s.ids + [NextId(t.channels, t.next)], size := s.size + 1));
    case Resume(_) =>
    case Accept(i) =>
      var s := t.slots[i];
      if s.ids != [] {
        LimitedUpdate(t.slots, i, s.(ids := s.ids[1..], size := s.size - 1));
      }
    case Free(id) => WithoutInLimited(t.slots, id);
  }

  /** Over every run, no listener queues more connections than it allows. */
  lemma {:induction false} LimitsHold(t: Table, ops: seq<TableOp>, i: nat)
    requires PossibleRun(t, ops) && Limited(t.slots)
    ensures var slots := TableRun(t, ops).slots;
            Limited(slots) && (i < |slots| && slots[i].limit > 0 ==> |slots[i].ids| <= slots[i].limit)
    decreases |ops|
  {
    if ops == [] {
      if i < |t.slots| {
        LimitedUpdate(t.slots, i, t.slots[i]);
      }
    } else {
      StepKeepsLimited(t, ops[0]);
      LimitsHold(TableStep(t, ops[0]), ops[1..], i);
    }
  }

  /** A listener that counts right takes a connection if and only if it has no limit or is below it. */
  lemma TakenIffBelowLimit(t: Table, i: nat)
    requires i < |t.slots| && Counted(t.slots)
    ensures var s, s' := t.slots[i], PeerOpenId(t, i, Sent).slots[i];
            s'.ids == (if s.limit == 0 || |s.ids| < s.limit then s.ids + [NextId(t.channels, t.next)] else s.ids)
  {
    CountedUpdate(t.slots, i, t.slots[i]);
  }

  /** A confirmation that blocked, tried again with one answer after the other. */
  function ConfirmedAgain(t: Table, answers: seq<Answer>): Table {
    if answers == [] then t else ConfirmAgain(ConfirmedAgain(t, answers[..|answers| - 1]), answers[|answers| - 1])
  }

  /** A connection is pending as long as its confirmation blocks, and no longer. */
  lemma {:induction false} PendingIff(t: Table, i: nat, first: Answer, more: seq<Answer>)
    requires i < |t.slots| && !Full(t.slots[i]) && t.pending == None
    ensures var t' := ConfirmedAgain(PeerOpenId(t, i, first), more);
            t'.pending == if first == Blocked && forall j :: 0 <= j < |more| ==> more[j] == Blocked then Some(NextId(t.channels, t.next)) else None
    decreases |more|
  {
    if more != [] {
      PendingIff(t, i, first, more[..|more| - 1]);
    }
  }
}
