/** The list of identities an authentication agent answers with, section 4.4 of draft-miller-ssh-agent-04. */
module Agent {
  import opened Bytes

  const IDENTITIES_ANSWER: byte := 12
  const ERROR_AGENT_PROTOCOL := -42

  datatype Identity = Identity(blob: Text, comment: Text)

  // ---- The format ----

  function EncodedPair(x: Identity): bytes {
    StringBytes(x.blob) + StringBytes(x.comment)
  }

  type Encoder = Identity -> bytes

  /** Identities, one after the other. */
  function EncodedAll(e: Encoder, ids: seq<Identity>): bytes {
    if ids == [] then [] else e(ids[0]) + EncodedAll(e, ids[1..])
  }

  function Answer(e: Encoder, ids: seq<Identity>): bytes
    requires |ids| < TWO_32
  {
    [IDENTITIES_ANSWER] + (StoreU32(|ids|) + EncodedAll(e, ids))
  }

  // ---- Parsing ----

  datatype Taken<+T> = Short | Taken(value: T, rest: bytes)

  function TakePair(b: bytes): Taken<Identity> {
    match TakeString(b)
    case None => Short
    case Some((blob, rest)) =>
      match TakeString(rest)
      case None => Short
      case Some((comment, end)) => Taken(Identity(blob, comment), end)
  }

  type Taker = bytes -> Taken<Identity>

  /** The identities found, and whether there were as many as announced. */
  datatype Parsed = Parsed(ids: seq<Identity>, complete: bool)

  function Parse(take: Taker, b: bytes, n: nat): Parsed
    decreases n, b
  {
    if n == 0 then Parsed([], true)
    else
      match take(b)
      case Short => Parsed([], false)
      case Taken(x, rest) =>
        var more := Parse(take, rest, n - 1);
        Parsed([x] + more.ids, more.complete)
  }

  /** What is taken is what was encoded, and the other way round. */
  ghost predicate Inverse(take: Taker, e: Encoder) {
    && (forall x, rest {:trigger take(e(x) + rest)} :: take(e(x) + rest) == Taken(x, rest))
    && (forall b {:trigger take(b)} :: take(b).Taken? ==> b == e(take(b).value) + take(b).rest)
  }

  lemma PairOfEncoded(x: Identity, rest: bytes)
    ensures TakePair(EncodedPair(x) + rest) == Taken(x, rest)
  {
    assert EncodedPair(x) + rest == StringBytes(x.blob) + (StringBytes(x.comment) + rest);
    TakeStringOfStored(x.blob, StringBytes(x.comment) + rest);
    TakeStringOfStored(x.comment, rest);
  }

  lemma EncodedOfPair(b: bytes)
    requires TakePair(b).Taken?
    ensures EncodedPair(TakePair(b).value) + TakePair(b).rest == b
  {
    var rest, p := TakeString(b).value.1, TakePair(b);
    StoredOfTakeString(b);
    StoredOfTakeString(rest);
    assert EncodedPair(p.value) + p.rest == StringBytes(p.value.blob) + (StringBytes(p.value.comment) + p.rest);
  }

  lemma PairsAreInverse(take: Taker, e: Encoder)
    requires (forall b {:trigger TakePair(b)} :: take(b) == TakePair(b)) && forall x {:trigger EncodedPair(x)} :: e(x) == EncodedPair(x)
    ensures Inverse(take, e)
  {
    forall x: Identity, rest: bytes
      ensures take(e(x) + rest) == Taken(x, rest)
    {
      PairOfEncoded(x, rest);
    }
    forall b | take(b).Taken?
      ensures b == e(take(b).value) + take(b).rest
    {
      EncodedOfPair(b);
    }
  }

  /** Parsing what was encoded finds exactly that, whatever follows. */
  lemma {:induction false} ParseOfEncoded(take: Taker, e: Encoder, ids: seq<Identity>, rest: bytes)
    requires Inverse(take, e)
    ensures Parse(take, EncodedAll(e, ids) + rest, |ids|) == Parsed(ids, true)
  {
    if ids != [] {
      var more := EncodedAll(e, ids[1..]) + rest;
      assert EncodedAll(e, ids) + rest == e(ids[0]) + more;
      ParseOfEncoded(take, e, ids[1..], rest);
    } else {
      assert EncodedAll(e, ids) + rest == rest;
    }
  }

  /** What a parse finds is there. */
  lemma {:induction false} EncodedOfParse(take: Taker, e: Encoder, b: bytes, n: nat)
    requires Inverse(take, e)
    ensures var p := Parse(take, b, n);
            Begins(b, EncodedAll(e, p.ids)) && |p.ids| <= n && (p.complete <==> |p.ids| == n)
    decreases n
  {
    if n > 0 && take(b).Taken? {
      var x, rest := take(b).value, take(b).rest;
      EncodedOfParse(take, e, rest, n - 1);
      StartsAfter(e(x), rest, EncodedAll(e, Parse(take, rest, n - 1).ids));
      assert Parse(take, b, n).ids[1..] == Parse(take, rest, n - 1).ids;
    }
  }

  lemma StartsAfter(a: bytes, b: bytes, c: bytes)
    requires Begins(b, c)
    ensures Begins(a + b, a + c)
  {
  }

  /** The parse of a whole response. */
  function ParseResponse(take: Taker, r: bytes): Parsed {
    if |r| < 5 || r[0] != IDENTITIES_ANSWER then Parsed([], false) else Parse(take, r[5..], NtohU32(r[1..]))
  }

  /** A response is accepted, with some identities, if and only if it starts with a well-formed answer that
      lists them. */
  lemma AcceptedIff(take: Taker, e: Encoder, r: bytes, ids: seq<Identity>)
    requires Inverse(take, e) && |ids| < TWO_32
    ensures ParseResponse(take, r) == Parsed(ids, true) <==> Begins(r, Answer(e, ids))
  {
    if Begins(r, Answer(e, ids)) {
      AnswerIsAccepted(take, e, r, ids);
    }
    if ParseResponse(take, r) == Parsed(ids, true) {
      AcceptedIsAnswer(take, e, r, ids);
    }
  }

  /** So for the format itself. */
  lemma ResponseAcceptedIff(r: bytes, ids: seq<Identity>)
    requires |ids| < TWO_32
    ensures ParseResponse(TakePair, r) == Parsed(ids, true) <==> Begins(r, Answer(EncodedPair, ids))
  {
    PairsAreInverse(TakePair, EncodedPair);
    AcceptedIff(TakePair, EncodedPair, r, ids);
  }

  lemma AnswerIsAccepted(take: Taker, e: Encoder, r: bytes, ids: seq<Identity>)
    requires Inverse(take, e) && |ids| < TWO_32 && Begins(r, Answer(e, ids))
    ensures ParseResponse(take, r) == Parsed(ids, true)
  {
    var rest := r[|Answer(e, ids)|..];
    var body := EncodedAll(e, ids) + rest;
    assert r == Answer(e, ids) + rest == [IDENTITIES_ANSWER] + (StoreU32(|ids|) + body);
    HeaderReads(|ids|, body);
    ParseOfEncoded(take, e, ids, rest);
  }

  lemma HeaderReads(n: u32, body: bytes)
    ensures var r := [IDENTITIES_ANSWER] + (StoreU32(n) + body); NtohU32(r[1..]) == n && r[5..] == body
  {
    var r := [IDENTITIES_ANSWER] + (StoreU32(n) + body);
    LoadOfStore(n);
    assert forall i :: 0 <= i < 4 ==> r[1..][i] == StoreU32(n)[i];
  }

  lemma AcceptedIsAnswer(take: Taker, e: Encoder, r: bytes, ids: seq<Identity>)
    requires Inverse(take, e) && |ids| < TWO_32 && ParseResponse(take, r) == Parsed(ids, true)
    ensures Begins(r, Answer(e, ids))
  {
    var n, all := NtohU32(r[1..]), EncodedAll(e, ids);
    EncodedOfParse(take, e, r[5..], n);
    HeaderSplits(r);
    StartsAfter(StoreU32(n), r[5..], all);
    StartsAfter([r[0]], StoreU32(n) + r[5..], StoreU32(n) + all);
  }

  lemma HeaderSplits(r: bytes)
    requires |r| >= 5
    ensures r == [r[0]] + (StoreU32(NtohU32(r[1..])) + r[5..])
  {
    StoreOfLoad(r[1..5]);
    assert NtohU32(r[1..5]) == NtohU32(r[1..]);
  }

  /** Taking a string, in terms of positions in the response. */
  lemma TakeAt(r: bytes, s: nat)
    requires s <= |r|
    ensures TakeString(r[s..]) ==
            if |r| - s < 4 || |r| - s - 4 < NtohU32(r[s..]) then None
            else Some((r[s + 4..s + 4 + NtohU32(r[s..])], r[s + 4 + NtohU32(r[s..])..]))
  {
    var b := r[s..];
    if |b| >= 4 && |b| - 4 >= NtohU32(b) {
      var n := NtohU32(b);
      assert b[4..4 + n] == r[s + 4..s + 4 + n] && b[4 + n..] == r[s + 4 + n..];
    }
  }

  // ---- The code ----

  class Client {
    var identities: seq<Identity>

    constructor ()
      ensures identities == []
    {
      identities := [];
    }

    /** `agent_list_identities`, once the agent has responded: the identities of a complete answer are
        appended in order; of an incomplete one, those before the first that is cut short. */
    method ListIdentities(response: bytes) returns (rc: int)
      modifies this
      ensures var p := ParseResponse(TakePair, response);
              rc == (if p.complete then 0 else ERROR_AGENT_PROTOCOL) && identities == old(identities) + p.ids
    {
      rc := ListWith(TakePair, response);
    }

    method ListWith(ghost take: Taker, response: bytes) returns (rc: int)
      requires forall b {:trigger TakePair(b)} :: take(b) == TakePair(b)
      modifies this
      ensures var p := ParseResponse(take, response);
              rc == (if p.complete then 0 else ERROR_AGENT_PROTOCOL) && identities == old(identities) + p.ids
    {
      var len: int, s := |response|, 0;
      len := len - 1;
      if len < 0 {
        return ERROR_AGENT_PROTOCOL;
      }
      if response[s] != IDENTITIES_ANSWER {
        return ERROR_AGENT_PROTOCOL;
      }
      s := s + 1;
      len := len - 4;
      if len < 0 {
        return ERROR_AGENT_PROTOCOL;
      }
      var left := NtohU32(response[s..]);
      s := s + 4;
      rc := ReadIdentities(take, response, s, len, left);
    }

    method ReadIdentities(ghost take: Taker, response: bytes, at: nat, budget: nat, count: nat) returns (rc: int)
      requires forall b {:trigger TakePair(b)} :: take(b) == TakePair(b)
      requires at + budget == |response|
      modifies this
      ensures var p := Parse(take, response[at..], count);
              rc == (if p.complete then 0 else ERROR_AGENT_PROTOCOL) && identities == old(identities) + p.ids
    {
      var s, len, left := at, budget, count;
      ghost var whole := Parse(take, response[at..], count);
      while left > 0
        invariant s + len == |response|
        invariant Leads(take, whole, old(identities), identities, response[s..], left)
      {
        var x;
        ghost var b := response[s..];
        x, s, len := ReadIdentity(response, s, len);
        assert take(b) == TakePair(b);
        if x.None? {
          return ERROR_AGENT_PROTOCOL;
        }
        LeadsOn(take, whole, old(identities), identities, b, left);
        left := left - 1;
        identities := identities + [x.value];
      }
      rc := 0;
    }

    /** One turn of the loop: nothing is read beyond the budget `len`. */
    method ReadIdentity(response: bytes, at: nat, budget: nat) returns (x: Option<Identity>, s: nat, left: nat)
      requires at + budget == |response|
      ensures match TakePair(response[at..])
              case Short => x == None
              case Taken(value, rest) => x == Some(value) && s + left == |response| && response[s..] == rest
    {
      s, left := at, 0;
      var len: int := budget;
      TakeAt(response, s);
      len := len - 4;
      if len < 0 {
        return None, s, left;
      }
      var blobLen := NtohU32(response[s..]);
      s := s + 4;
      len := len - blobLen;
      if len < 0 {
        return None, s, left;
      }
      var blob := response[s..s + blobLen];
      s := s + blobLen;
      TakeAt(response, s);
      len := len - 4;
      if len < 0 {
        return None, s, left;
      }
      var commentLen := NtohU32(response[s..]);
      s := s + 4;
      if commentLen > len {
        return None, s, left;
      }
      len := len - commentLen;
      x := Some(Identity(blob, response[s..s + commentLen]));
      s := s + commentLen;
      left := len;
    }
  }

  /** With the identities `ids` in the list, what is left to parse leads to `whole`. */
  ghost predicate Leads(take: Taker, whole: Parsed, before: seq<Identity>, ids: seq<Identity>, b: bytes, n: nat) {
    var p := Parse(take, b, n);
    before + whole.ids == ids + p.ids && whole.complete == p.complete
  }

  lemma LeadsOn(take: Taker, whole: Parsed, before: seq<Identity>, ids: seq<Identity>, b: bytes, n: nat)
    requires n > 0 && Leads(take, whole, before, ids, b, n) && take(b).Taken?
    ensures Leads(take, whole, before, ids + [take(b).value], take(b).rest, n - 1)
  {
  }
}
