/**
 Channel requests of the peer: over whole runs, each one that wants a reply is answered exactly once.
 */
module ChannelReplies {
  import opened Bytes
  import opened PacketQueue
  import opened ChannelSpec
  import opened ChannelTraces
  import opened ChannelSteps
  import opened ChannelRuns
  import opened ChannelTerms

  /** A request that has a flag for it wants a reply if and only if the flag is set, section 5.4 of RFC 4254 (as long as
      the place of the flag fits 32 bits); one that is cut off before the flag does. */
  lemma WantsReplyIff(m: Message, name: bytes, rest: bytes)
    requires m[0] == MSG_CHANNEL_REQUEST && |m| >= 9 && |m| <= TWO_32
    ensures TakeString(m[5..]) == Some((name, rest)) && rest != [] ==> (WantsReply(m) <==> rest[0] != 0)
    ensures TakeString(m[5..]) == Some((name, [])) ==> WantsReply(m)
  {
    assert m[5..][4..] == m[9..];
    assert NtohU32(m[5..]) == NtohU32(m[5..][..4] + m[9..]);
  }

  /** The packets that a channel of the session has parked are no replies. */
  ghost predicate KeepsShape(w: World, k: u32) {
    Grounded(w) && (k in w.chans ==> HoldsTo(ViewOf(w, k)))
  }

  /** And the replies sent with the id `k` are those demanded so far. */
  ghost predicate Answered(w: World, k: u32) {
    KeepsShape(w, k) && Answers(Own(w.wire, k)) == Replies(k, w.heard)
  }

  lemma StepKeepsShape(w: World, op: Op, k: u32)
    requires Callable(w, op) && KeepsShape(w, k)
    ensures KeepsShape(Step(w, op), k)
  {
    hide HoldsTo, Step;
    StepKeepsGrounded(w, op);
    if k in Step(w, op).chans {
      StepKeepsKeys(w, op, k);
      StepHoldsTo(w, op, k);
    }
  }

  lemma AnswersOn(w: World, w': World, k: u32, own: bool)
    requires Replied(w, w', k, own) && Answers(Own(w.wire, k)) == Replies(k, w.heard)
    ensures Answers(Own(w'.wire, k)) == Replies(k, w'.heard)
  {
    var since := w'.heard[|w.heard|..];
    RepliesAreAside(Own(w.wire, k), k, since);
    RepliesOfConcat(k, w.heard, since);
    assert w'.heard == w.heard + since;
  }

  lemma FreshAnswers(m: Move, k: u32, heard: seq<Message>)
    requires !m.Do?
    ensures Answers(Fresh(m, Replies(k, heard)).own) == Replies(k, heard)
  {
    RepliesAreAside([], k, heard);
    assert [] + Replies(k, heard) == Replies(k, heard);
    if m.OpenPeer? {
      OwnExtends(Replies(k, heard), ConfirmBytes(m.sender, m.id));
    }
  }

  lemma OpeningAnswers(w: World, m: Move, k: u32)
    requires Possible(w, m) && !m.Do? && Answered(w, k)
    ensures Answered(Moved(w, m), k)
  {
    MoveKeepsGrounded(w, m);
    if k != m.id {
      OpeningSame(w, m, k);
    } else {
      OpeningFresh(w, m);
      FreshKeepsTerms(m, w.heard);
      FreshAnswers(m, k, w.heard);
    }
  }

  lemma MoveAnswers(w: World, m: Move, k: u32)
    requires Possible(w, m) && Answered(w, k)
    ensures Answered(Moved(w, m), k)
  {
    if m.Do? {
      StepKeepsShape(w, m.op, k);
      if k == m.op.k {
        HoldsToIsShaped(ViewOf(w, k));
      }
      StepReplied(w, m.op, k);
      AnswersOn(w, Step(w, m.op), k, k == m.op.k);
    } else {
      OpeningAnswers(w, m, k);
    }
  }

  lemma {:induction false} RunAnswers(w: World, moves: seq<Move>, k: u32)
    requires Legal(w, moves) && Answered(w, k)
    ensures Answered(Run(w, moves), k)
    decreases |moves|
  {
    if moves != [] {
      MoveAnswers(w, moves[0], k);
      RunAnswers(Moved(w, moves[0]), moves[1..], k);
    }
  }

  /** In every run from a session without channels, and for every id, in use, freed or never handed out: the replies
      sent with the id are one for each request handled that names it and wants one, in their order. */
  lemma RequestsAnswered(moves: seq<Move>, k: u32)
    requires Legal(NoChannels(), moves)
    ensures var w := Run(NoChannels(), moves); Answers(Own(w.wire, k)) == Replies(k, w.heard)
  {
    RunAnswers(NoChannels(), moves, k);
  }
}
