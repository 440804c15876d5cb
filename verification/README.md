# A verified model of libssh2's protocol core

This project models five parts of libssh2 1.11.1 in Dafny and proves what they promise:

- **Channels** (`ChannelSpec`, `PacketQueue`, `Sessions` and the `Channel*` modules): the re-entrant channel layer with
  its window credit in both directions, the list of received packets that all channels of a session share, the end of
  a stream and of a channel, process requests, and channel ids. `Sessions` holds the session and its channels as
  objects that are updated in place; every method is proved to do to the session what a function of `ChannelSpec`
  says, and the theorems about whole runs are proved about those functions. The transport is an answer that comes with
  each call: accepted, would block, or failed. What was sent and what arrived is recorded in ghost traces.
- **bcrypt PBKDF and Blowfish** (`Blowfish`, `BlowfishCbc`, `Bcrypt`): the cipher and its inverse for arbitrary tables,
  chaining in place, the two key schedules, and the key derivation that scatters its output with a stride.
- **ChaCha20 and the authenticated cipher** (`ChaChaBlock`, `ChaCha`, `ChaChaPoly`, `CryptPacket`): the in-place stream
  cipher against a pure keystream, the cipher with its tag, and the packet wrapper around it. Words are numbers below
  2^32; exclusive or, rotation and wrapping addition on them are defined in `Bits`.
- **known_hosts** (`KnownHostFormat`, `KnownHosts`): the reader and the writer of a line, and the search for a host.
- **Agent identities** (`Agent`): the length-budgeted parse of an agent's answer.

SHA-512, HMAC-SHA1, Poly1305, base64 and the initial Blowfish tables are parameters; where a proof needs a property of
one (base64 undoing itself) the lemma says so. A definition that a long proof must not look into is hidden from it, or
passed to it as a ghost function with the promise that it agrees with the definition (`ChaCha.Computes`, `Blowfish.Runs`,
`Bcrypt.Hashes`).

## How the channel theorems are stated

A `World` is the channels of a session, the shared packet list, the trace of what was sent, the messages that were handled
and a ledger of what happened to each channel's credit. An operation is a call on one channel with its surroundings (`Env`):
the messages that are ready, the code that ends a drain, how the transport answers, and the replies the call may wait for. A
run (`ChannelRuns`) is any sequence of openings, by this side or by the peer, and of calls; the theorems about runs start
from a session without channels. Every theorem about a channel rests on two facts: what a call does to its own channel is a
function of that channel's share of the world and of how much of what arrives and is queued the call gets to see
(`ChannelSteps.CallsAreLocal`), and a call does nothing to another channel but let it receive, and reply to the requests it
receives (`ChannelSteps.CallsDoNotInterfere`).

The trace of a channel holds every packet sent with its id. Draining the transport answers channel requests of the peer in
the middle of any call, so that replies are interleaved with whatever else a channel sends: `Spoken` is the trace without
replies, `Answers` the replies, and `Replies` those that the handled messages demand.

What is on the wire is read by `ChannelTraces.Decode`, which follows the message formats of RFC 4254 and knows nothing of how
packets are built or taken apart. Through it, `ChannelTerms` ties the windows and packet sizes in the fields of a channel to what
the two sides tell each other, the receive account (`ChannelReceiving`) counts the peer's credit from what it was told and granted,
and `ChannelReading` says that what a reader gets are the payloads of the peer's messages.

Some properties do not hold of the code without a condition. They are stated with the condition, and lemmas show that it
is exact, step by step, or what happens without it:

- A window adjustment that was blocked and is resumed with the same amount sends the amount parked earlier but widens the
  window by the argument. The receive account survives if and only if nothing was queued when it started
  (`ResumedAdjustFaithfulIff`, `AdjustKeepsAccountIff`, `UnfaithfulAdjustBreaksAccount`).
- Data beyond the peer's credit or the packet size is cut or dropped, so that the peer and this side count differently: a
  message keeps the strict receive account if and only if the peer respects both (`MessageKeepsAccountIff`, `NothingIsLost`).
- An adjustment whose sending fails is left parked and put back in the queue, so that it is granted twice once a later try is
  accepted: tries that only block keep what was asked for (`RetriedAdjustIff`).
- An adjustment that takes the window beyond 32 bits wraps (`AdjustKeepsAccountIff`, `ReadWidensWindowIff`).
- A window adjustment that arrives before the confirmation of an opening is overwritten by it (`ConfirmKeepsCreditIff`).
- When the confirmation of a connection that the peer opens would block, the channel is forgotten: it is queued if and only if
  the confirmation is accepted at the first attempt (`QueuedIffAcceptedAtOnce`).
- A flush resumed after it was blocked subtracts the flushed octets again (`ResumedFlushBreaksAccount`), and its refund
  counts 13 octets of header for every packet (`FlushRefund`): the receive account survives a flush if and only if it is entered
  afresh or has nothing to subtract again, and its refund is faithful (`FlushKeepsAccountIff`).
- Nothing stops a second EOF, an EOF that overtakes a parked write, or an EOF after CLOSE when the first EOF failed
  (`EofKeepsOrderIff`, `ShutKeepsOrderIff`, `EofOutOfOrder`, `EofAfterClose`).
- CLOSE is not the last packet a channel sends. A read, an adjustment or a flush on a closed channel can still grant window, a
  startup can still send its request, and nothing in them looks at the mark. `SpeaksAfterCloseIff` says for every call when
  it speaks after CLOSE, and `CloseIsLastIff` and `EndsForGood` that CLOSE is last over a run if and only if no call does.
- A channel request that wants a reply is answered with its own id whether or not there is such a channel, also after the
  channel was freed and before it exists (`RequestsAnswered`, `FreedStaysSilent`, `NothingOutOfNothing`). The reply carries
  this side's id where the peer expects its own, so it reaches the right channel if and only if the two are equal
  (`ReplyReachesIff`).
- A listener's count is wrong after a channel is freed while it is queued (`StepKeepsCountedIff`), and ids repeat once the
  counter has wrapped (`NextIdIsFreshIff`, `IdsRepeatAfterWrap`).
- A known host is lost when it is read back if its name has fewer than 3 or more than 254 octets, its salt or hash is too
  long, or the key half of its line has fewer than 20 octets, and restored otherwise (`ReadRestoresWrittenIff`, `ShortNameIsLost`).
- The packet wrapper loses the last four octets of padding unless they repeat the four before them
  (`PaddingSurvivesIff`).

The comment above `hostline` says that comments are parsed for ssh-rsa and ssh-dsa keys only; the code parses them for
every type but RSA1, and so does the model.

## Model

| member | source | states |
|---|---|---|
| PacketQueue.ReadSplitsStream | libssh2-1.11.1/src/channel.c:2118-2206 | what a read returns, followed by the unread octets it leaves for that reader, is the stream that was queued |
| PacketQueue.ReadsAreFifo | libssh2-1.11.1/src/channel.c:2118-2225 | over any run of reads and arrivals on the shared list, what a reader was given followed by what is queued for it is what was queued followed by what arrived: no loss, repetition or reordering, merge mode included |
| PacketQueue.ReadKeepsDisjointStream | libssh2-1.11.1/src/channel.c:2147-2167 | the unread octets of every stream the reader does not take from are unchanged |
| PacketQueue.ReadKeepsOthers | libssh2-1.11.1/src/channel.c:2130-2206 | packets the reader does not take from keep their order, content and read offset |
| PacketQueue.ReadLeavesSuffix | libssh2-1.11.1/src/channel.c:2169-2203 | drained packets are unlinked, at most the first packet left is partly read, and a read that comes up short leaves none |
| PacketQueue.ReadCountsQueued | libssh2-1.11.1/src/channel.c:2211-2222 | a read takes exactly the octets it returns out of its channel's queued total and none out of another channel's |
| PacketQueue.FlushCountsBytes | libssh2-1.11.1/src/channel.c:1680-1737 | a first-entry flush takes exactly the octets it reports out of its channel's queued total and none out of another channel's |
| PacketQueue.FlushEmpties | libssh2-1.11.1/src/channel.c:1672-1739 | a flush leaves nothing of the stream it chooses, unless it stops at a packet that is cut short, and leaves every other stream of the channel, and those of other channels, as they were |
| PacketQueue.UnlinkIsExact | libssh2-1.11.1/src/channel.c:2856-2864 | unlinking every packet of a channel leaves none of it and leaves every disjoint stream as it was |
| ChannelTraces.DataDecodes | libssh2-1.11.1/src/channel.c:2383-2424 | a data packet decodes, by section 5.2 of RFC 4254, to its recipient, stream and exactly its payload |
| ChannelTraces.ControlDecodes | libssh2-1.11.1/src/channel.c:1896-1898 | window adjustment, EOF and CLOSE packets decode to the recipient and amount they were built from |
| ChannelTraces.OpenDecodes | libssh2-1.11.1/src/channel.c:199-203 | an opening decodes, by section 5.1 of RFC 4254, to its kind, its sender, its window and packet size and what follows |
| ChannelTraces.ConfirmDecodes | libssh2-1.11.1/src/packet.c:210-216 | the confirmation of a connection decodes to both ids, each in its place, and the default window and packet size |
| ChannelTraces.DrainDelivers | libssh2-1.11.1/src/packet.c:944-1092 | draining the transport is, for every channel, receiving the messages meant for it one by one: fields, queued octets and traces all agree |
| ChannelTraces.DeliverFrame | libssh2-1.11.1/src/packet.c:1006-1092 | receiving changes nothing of a channel but its send window, the peer's EOF and CLOSE marks and the count of available octets, and adds nothing to its trace but one reply for each request that demands it |
| ChannelTraces.ReplyReachesIff | libssh2-1.11.1/src/packet.c:1196-1203 | the reply to a request decodes to a failure for this side's id of the channel, and so to one for the peer's id if and only if the two are equal |
| ChannelTraces.CountsAreDecoded | libssh2-1.11.1/src/channel.c:1896-1898 | what the sums over a trace count is read off the decoded packets: data octets, amounts granted and terms announced |
| ChannelSteps.CallsAreLocal | libssh2-1.11.1/src/channel.c:125-2891 | what any operation does to its own channel is a function of that channel's fields, counters and trace, and of a hint: how many of the arriving messages it receives, whether its wait ends, and what it finds in the shared queue, for a flush exactly and never more than is queued; the trace of a channel that the operation takes out of the session is that of the same function |
| ChannelSteps.CallsDoNotInterfere | libssh2-1.11.1/src/channel.c:1870-2891 | no operation on one channel changes another channel's fields, queued octets or trace, except by receiving messages for it and replying to requests that name it |
| ChannelSteps.StepKeepsAll | libssh2-1.11.1/src/packet.c:1340-1350 | a property of queued packets that every admitted packet has is kept by every operation |
| ChannelRuns.OpenIsTwoMoves | libssh2-1.11.1/src/channel.c:130-350 | the first call of an opening is the listing of a channel under a new id followed by the step that resumed calls repeat |
| ChannelRuns.StepReplied | libssh2-1.11.1/src/packet.c:1119-1210 | during any operation every channel, in the session or not, sends exactly one reply to each handled request that names it and wants one, and a channel other than the operation's own sends nothing else |
| ChannelRuns.AscendingIdsAreNew | libssh2-1.11.1/src/channel.c:63-89 | ids handed out in ascending order, as the counter does until it wraps, are new each time and stay below the next |
| ChannelRuns.NothingOutOfNothing | libssh2-1.11.1/src/packet.c:957-967 | in every run from a session without channels there is no channel, queued packet or credit of an id that was not handed out, and what was sent with it is exactly the replies to requests that named it: nothing if and only if there was none |
| ChannelRuns.GoneStaysGone | libssh2-1.11.1/src/channel.c:2871-2872 | a channel that left the session never comes back |
| ChannelTerms.OpeningSays | libssh2-1.11.1/src/channel.c:146-208 | the request that opens a channel decodes to the id, the receive window and the packet size in the fields of the channel, which are those that were asked for; the channel begins open both ways, with nothing to read |
| ChannelTerms.PeerOpenSays | libssh2-1.11.1/src/packet.c:180-240 | the confirmation of a channel the peer opens decodes to the peer's id, and to the id, receive window and packet size in the fields of the channel; the peer's terms are in the fields for what this side sends, and the channel begins open both ways, with nothing to read |
| ChannelTerms.OpenReports | libssh2-1.11.1/src/channel.c:210-350 | an opening reports what became of its request or of its reply, success exactly for a confirmation of at least 17 octets; the channel stays listed exactly if that is success or EAGAIN, is open exactly on success, and otherwise leaves nothing in the queue |
| ChannelTerms.TermsHold | libssh2-1.11.1/src/channel.c:130-2727 | over every run from a session without channels and for every id: what the channel announces, decoded from its trace, is nothing before its opening is sent and then exactly once its own id, receive window and packet size; every other packet it sends is addressed to the id in the peer's last terms, and no data packet exceeds the packet size in them; an open channel goes by those terms |
| ChannelSending.FirstAttempt | libssh2-1.11.1/src/channel.c:2355-2430 | a write begun in the idle state fails on a closed or ended channel with its own code, parks min(length, 32700, window, packet size) octets if it would block, or ends idle again: with exactly that packet sent, or with nothing sent and the code of the transport; replies to requests aside |
| ChannelSending.ParkedWriteIsTransparent | libssh2-1.11.1/src/channel.c:2433-2464 | a parked write sends nothing but replies until accepted, whatever is received meanwhile, and then exactly the packet it parked; once it is accepted or fails it is parked no more |
| ChannelSending.WriteIsTransparent | libssh2-1.11.1/src/channel.c:2336-2468 | under every schedule of would-blocks and arrivals, a resumed write that succeeds has put exactly one packet on the wire, with the size fixed when it left the idle state; one that does not succeed has put none; it ends in the idle state unless it still blocks; replies to requests aside |
| ChannelSending.SendAllSendsPrefix | libssh2-1.11.1/example/direct_tcpip.c:284-298 | the sending loop adds to the data sent exactly the prefix of its buffer it counts as written |
| ChannelSending.GrantKeepsCreditIff | libssh2-1.11.1/src/packet.c:1306-1330 | a window adjustment, with or without a parked write, keeps the send account if and only if the window stays below 2^32 |
| ChannelSending.ConfirmKeepsCreditIff | libssh2-1.11.1/src/channel.c:259-266 | a confirmation, read off the reply as it arrived, keeps the send account if and only if nothing was granted before it |
| ChannelSending.SendCreditHolds | libssh2-1.11.1/src/channel.c:2373-2450 | in every run from a session without channels, openings included, whose adjustments fit and follow the confirmation, each send window is initial window plus adjustments less data sent, a parked write fits in it, and no channel sends more than it was granted |
| ChannelReceiving.WindowIsExact | libssh2-1.11.1/src/packet.c:1079-1083 | in a strict account the receive window is exactly what is queued plus what the peer may still send by the window announced to it and the adjustments granted to it, both decoded from the trace; before the announcement, the window is still to be announced |
| ChannelReceiving.WindowFullIffNoCredit | libssh2-1.11.1/src/channel.c:2607-2611 | the window equals the available octets exactly when the peer has no credit left, counted by the octets it sent |
| ChannelReceiving.MessageKeepsAccountIff | libssh2-1.11.1/src/packet.c:1032-1080 | receiving, truncation included, keeps available octets equal to queued octets and the window less these equal to the peer's credit, as told and granted on the wire, plus what was lost; nothing is lost and the strict account kept if and only if the message respects that credit and the packet size |
| ChannelReceiving.AdjustBalancedIff | libssh2-1.11.1/src/channel.c:1870-1931 | an adjustment widens the window by what it puts on the wire if and only if it starts afresh or repeats the parked amount |
| ChannelReceiving.AdjustReports | libssh2-1.11.1/src/channel.c:1869-1931 | an adjustment reports success exactly when it leaves nothing parked, and otherwise whether its packet would block or failed |
| ChannelReceiving.AdjustKeepsAccountIff | libssh2-1.11.1/src/channel.c:1870-1931 | an adjustment keeps the receive account if and only if it starts afresh or repeats the parked amount, and the strict account if and only if the window it leaves needs no more than 32 bits as well |
| ChannelReceiving.UnfaithfulAdjustBreaksAccount | libssh2-1.11.1/src/channel.c:1909-1926 | an adjustment that resumes a parked one with another amount always breaks the receive account |
| ChannelReceiving.ResumedAdjustFaithfulIff | libssh2-1.11.1/src/channel.c:1880-1926 | a blocked adjustment resumed with the same argument is faithful if and only if nothing was queued when it started |
| ChannelReceiving.ResumedFlushBreaksAccount | libssh2-1.11.1/src/channel.c:1744-1753 | a resumed flush with octets to subtract always breaks the receive account |
| ChannelReceiving.FlushRefund | libssh2-1.11.1/src/channel.c:1728-1729 | the refund is what was discarded plus the excess of read offsets over 13, in 64-bit arithmetic |
| ChannelReceiving.ReadKeepsAccount | libssh2-1.11.1/src/channel.c:2089-2222 | a read whose adjustment is faithful keeps the receive account, and a strict one if its window fits and the peer respects its credit |
| ChannelReceiving.ReadResumes | libssh2-1.11.1/src/channel.c:2086-2107 | an adjustment that a read could not send is sent by the next read, whatever that one's buffer |
| ChannelReceiving.FlushKeepsAccount | libssh2-1.11.1/src/channel.c:1669-1759 | a first-entry flush keeps the receive account, and a strict one if its refund fits |
| ChannelReceiving.FlushKeepsAccountIff | libssh2-1.11.1/src/channel.c:1669-1759 | a flush, first entry or resumed, keeps the receive account if and only if it has nothing to subtract a second time and its refund starts afresh or repeats the parked amount, and the strict account if and only if the refund fits as well |
| ChannelReceiving.AccountHolds | libssh2-1.11.1/src/channel.c:1669-2222 | in every run from a session without channels with faithful adjustments and first-entry flushes, every channel's available octets are what the queue holds for it; it has announced, decoded from its trace, nothing or exactly its id, window and packet size; and its window less the octets available is the announced window plus the decoded adjustments less what the peer sent, plus what was lost, in 32 bits |
| ChannelReceiving.NothingIsLost | libssh2-1.11.1/src/packet.c:1032-1080 | if moreover the windows fit 32 bits and the peer respects the packet size and the credit it was told and granted on the wire, every octet it sent was kept, and the window is exactly what is queued plus the credit the peer still holds |
| ChannelReceiving.OneAdjustConserved | libssh2-1.11.1/src/channel.c:1880-1926 | one accepted adjustment moves its amount to the wire or to the queue, which stays below 1024 |
| ChannelReceiving.AdjustmentsConserved | libssh2-1.11.1/src/channel.c:1870-1931 | over any sequence of accepted adjustments, what was granted plus what is queued is what was requested, and the queue stays below 1024 |
| ChannelReceiving.RetriedAdjustIff | libssh2-1.11.1/src/channel.c:1909-1926 | an adjustment tried again until it is accepted, through any sequence of would-blocks and failures, grants what was asked for if and only if no failed try has left it in the queue as well; what the last failed try left is granted once more |
| ChannelReceiving.ReadWidensWindowIff | libssh2-1.11.1/src/channel.c:2089-2107 | after the first half of a read the window is at least three quarters of the initial one plus the buffer if and only if it was before, or neither the adjustment nor the new window is reduced to 32 bits |
| ChannelReading.MessageMeans | libssh2-1.11.1/src/packet.c:944-1092 | what the code takes from a well-formed data, adjustment, EOF, CLOSE or request message is what the message carries by sections 5 and 6 of RFC 4254: recipient, amount, end, and the number of payload octets |
| ChannelReading.ReceiveMeans | libssh2-1.11.1/src/packet.c:1006-1330 | what a decoded message does to its channel: data is counted and revokes an EOF unless the window is used up, an adjustment widens the send window in 32 bits, EOF marks the end of the peer's data, CLOSE that and its own |
| ChannelReading.KeptIsMost | libssh2-1.11.1/src/packet.c:1032-1080 | of a data message as many octets are kept as fit the packet size and the window, and no more |
| ChannelReading.PayloadIsQueued | libssh2-1.11.1/src/packet.c:944-1092 | what a reader finds of a queued message is the decoded payload, up to what was kept, if the message is for its channel and stream (type 94 for stream 0, type 95 for its own stream, and for stream 0 exactly in merge mode), and nothing otherwise |
| ChannelReading.MergingMeans | libssh2-1.11.1/src/channel.c:1997-2020 | extended data is heard on stream 0 once it is merged, not once it is kept apart again, and on its own stream either way |
| ChannelReading.ReadsArePayloads | libssh2-1.11.1/src/channel.c:2071-2225 | over every run from a session without channels, the octets handed to a reader followed by those still queued for it are the decoded payloads of the messages that arrived for its stream, in order, each up to what was kept of it |
| ChannelReading.EveryPayloadIsRead | libssh2-1.11.1/src/channel.c:2071-2225 | if moreover the run is faithful and the peer respects its credit, they are those payloads whole |
| ChannelReading.ReadReports | libssh2-1.11.1/src/channel.c:2109-2225 | a read whose window is prepared returns as much of its stream as fits the buffer; if there is nothing, 0 exactly once the peer ended the stream or the transport will bring no more, and otherwise that it would block |
| ChannelReading.FlushMeans | libssh2-1.11.1/src/channel.c:1669-1759 | a flush at first entry, over a queue whose extended data holds its type code (as every run keeps it), leaves nothing of the stream it chooses, leaves the other streams and channels as they were, and reports, once it does not block, how many octets of its channel it took off the queue |
| ChannelReading.FlushReports | libssh2-1.11.1/src/channel.c:1690-1755 | a flush that meets a packet cut short fails with a protocol error, counts nothing as consumed and sends nothing; any other reports what it discarded |
| ChannelEnding.PhaseMeaning | libssh2-1.11.1/src/channel.c:2646-2727 | the phases of a stream are exactly: data only, data then EOF, data then EOF then CLOSE |
| ChannelEnding.WriteKeepsOrder | libssh2-1.11.1/src/channel.c:2362-2370 | a write never puts data after EOF |
| ChannelEnding.EofKeepsOrderIff | libssh2-1.11.1/src/channel.c:2495-2519 | an EOF keeps the order if and only if it is not accepted, or is the first and no write is parked |
| ChannelEnding.ShutKeepsOrderIff | libssh2-1.11.1/src/channel.c:2646-2727 | a close keeps the order if and only if its sends succeed or would block and no write is parked when EOF goes out |
| ChannelEnding.OrderHolds | libssh2-1.11.1/src/channel.c:2646-2727 | after every disciplined run from a session without channels, each channel has sent data, then one EOF once it marked its end, then one CLOSE once it closed |
| ChannelEnding.EofOutOfOrder | libssh2-1.11.1/src/channel.c:2505-2516 | a second EOF, or data resumed after an EOF, is out of order on the wire |
| ChannelEnding.EofAfterClose | libssh2-1.11.1/src/channel.c:2659-2711 | a close whose EOF failed and that blocks sends CLOSE and then EOF |
| ChannelEnding.CloseMeans | libssh2-1.11.1/src/channel.c:2646-2727 | a close that would block leaves the channel open and any other marks it closed; one that reports success had its CLOSE accepted and, over a connection that lasts and with its EOF out of the way, has seen the peer's CLOSE, the end of the transport or a message that ends the wait |
| ChannelEnding.CloseAgain | libssh2-1.11.1/src/channel.c:2646-2656 | closing a closed channel changes nothing and reports success |
| ChannelSilence.SpeaksAfterCloseIff | libssh2-1.11.1/src/channel.c:1525-2519 | on a channel whose CLOSE was accepted, a call sends a packet that is no reply exactly if the transport accepts it and the call is a read that needs window, an adjustment or a refund that is neither queued nor empty, an EOF, a startup not yet past its request, or an opening not yet sent; a write, a close, a free and a drain never do |
| ChannelSilence.CloseIsLastIff | libssh2-1.11.1/src/channel.c:1525-2727 | after every disciplined run from a session without channels, and for every id, CLOSE once sent is the last packet that is no reply if and only if no call of the run on the channel spoke after it, and the replies are one to each request |
| ChannelSilence.FreeEndsInOrder | libssh2-1.11.1/src/channel.c:2815-2891 | a free that does not block reports success, removes the channel, leaves no data queued for its id, and its trace is data, EOF, CLOSE |
| ChannelSilence.FreedStaysSilent | libssh2-1.11.1/src/packet.c:957-967 | after a channel is freed in any run from a session without channels, and whatever is opened and called then, no data is queued for its id and what is sent with it is exactly one reply to each request that still names it: nothing if and only if there is none |
| ChannelSilence.EndsForGood | libssh2-1.11.1/src/channel.c:2815-2891 | the whole trace of a channel freed in a disciplined run, then and ever after: data, one EOF, exactly one CLOSE, and one reply to each request; CLOSE is the last packet that is no reply if and only if no call spoke after it |
| ChannelReplies.RequestsAnswered | libssh2-1.11.1/src/packet.c:1119-1210 | in every run from a session without channels and for every id, in use, freed or never handed out, the replies sent with it are one for each handled request that names it and wants one, in order |
| ChannelReplies.WantsReplyIff | libssh2-1.11.1/src/packet.c:1119-1210 | a request is answered if and only if its want-reply octet, where section 5.4 of RFC 4254 puts it, is not zero, or it is cut off before that |
| ChannelStartup.RequestDecodes | libssh2-1.11.1/src/channel.c:1542-1573 | the request fills the length computed for it and decodes to its section 6.5 fields of RFC 4254 with nothing left over |
| ChannelStartup.OneRequest | libssh2-1.11.1/src/channel.c:1525-1626 | over every run from a session without channels at most one request is accepted for an id, whether its channel is still in the session or not, and if all attempts ask for the same the one accepted is that one, addressed to the peer's id of the channel |
| ChannelStartup.StartupSucceedsIff | libssh2-1.11.1/src/channel.c:1525-1626 | a startup reports success if and only if its request is accepted, now or by an earlier call, and the peer answers SUCCESS, and then exactly one request was sent; it is over unless it would block, and one that is over is refused |
| ChannelStartup.StartupClimbs | libssh2-1.11.1/src/channel.c:1525-1626 | between any two points of a run the startup state of a channel only climbs |
| ChannelTable.NextIdIsFreshIff | libssh2-1.11.1/src/channel.c:63-89 | the id allocated is new to the session's list if and only if every listed id is below the counter |
| ChannelTable.AcceptKeepsIds | libssh2-1.11.1/src/channel.c:834-847 | accepting a connection leaves exactly the same ids in use |
| ChannelTable.FreeCounts | libssh2-1.11.1/src/channel.c:2871-2872 | freeing a channel takes one use of its id away and nothing else |
| ChannelTable.StepKeepsSound | libssh2-1.11.1/src/packet.c:137-233 | every open, peer open, resumed confirmation, accept and free keeps all ids distinct and below the number of allocations |
| ChannelTable.IdsStayUnique | libssh2-1.11.1/src/channel.c:63-123 | over every run of at most 2^32 allocations no id is in use twice and all are below the number of allocations |
| ChannelTable.UnlistedForGood | libssh2-1.11.1/src/channel.c:63-123 | over such a run an id that was handed out and is not listed is never listed again |
| ChannelTable.QueuedIffAcceptedAtOnce | libssh2-1.11.1/src/packet.c:137-242 | a peer's connection is queued if and only if its confirmation is accepted at the first attempt; one whose confirmation blocks is never listed, even if it is accepted in the end |
| ChannelTable.IdsRepeatAfterWrap | libssh2-1.11.1/src/channel.c:84-85 | once the counter has wrapped with the largest id in use, the next id is a duplicate |
| ChannelTable.StepKeepsCountedIff | libssh2-1.11.1/src/channel.c:834-847 | a listener's count equals its queue length after every operation, except when a channel is freed while queued |
| ChannelTable.LimitsHold | libssh2-1.11.1/src/packet.c:146-155 | over every run no listener queues more connections than its limit allows |
| ChannelTable.TakenIffBelowLimit | libssh2-1.11.1/src/packet.c:146-240 | a listener that counts right takes a connection, at the end of its queue, if and only if it has no limit or is below it |
| ChannelTable.PendingIff | libssh2-1.11.1/src/packet.c:221-241 | a connection is pending as long as every attempt at its confirmation blocks, and no longer |
| Sessions.Session.Locate | libssh2-1.11.1/src/channel.c:96-123 | the loops over the session's list and all listener queues find the one channel with an id, or nothing if there is none |
| Sessions.Session.NextId | libssh2-1.11.1/src/channel.c:63-89 | the scan computes the id the table of ids expects, and advances the counter past it |
| Sessions.Session.NextIdIsNew | libssh2-1.11.1/src/channel.c:63-89 | for the first 2^32 allocations the id handed out belongs to no known channel |
| Sessions.Session.BeginOpen | libssh2-1.11.1/src/channel.c:146-208 | a channel this side opens is listed at once, under the next id, with its request parked; `ChannelTerms.OpeningSays` says what the request announces |
| Sessions.Session.Open | libssh2-1.11.1/src/channel.c:130-350 | an opening, begun or resumed, does to the whole session what its specification says: request, wait, confirmation, and removal of a channel that fails to open; `ChannelTerms` says what it announces and reports |
| Sessions.Session.QueueListener | libssh2-1.11.1/src/packet.c:66-266 | a peer's connection goes to the first listener for its host and port, unless that is full, and is queued once confirmed; a confirmation or refusal that blocks is resumed, and a resumed confirmation links nothing |
| Sessions.Session.Accept | libssh2-1.11.1/src/channel.c:826-857 | the first pending connection moves to the session's list, no lookup changes and the count follows |
| Sessions.Session.Add | libssh2-1.11.1/src/packet.c:632-1394 | in-place handling of one message changes its channel, the shared list and nothing else, as specified; a request that wants a reply is handled if the reply is accepted, and changes nothing otherwise |
| Sessions.Session.Answer | libssh2-1.11.1/src/packet.c:1119-1210 | a channel request gets a failure with the id it named if it asks for a reply or is too short to say |
| Sessions.Session.Receive | libssh2-1.11.1/src/channel.c:2111-2113 | the drain loop handles every message that is ready, in order |
| Sessions.Session.TakeQueued | libssh2-1.11.1/src/channel.c:2118-2206 | the loop over the shared list, unlinking and advancing in place, returns and leaves what the stream specification says |
| Sessions.Session.Discard | libssh2-1.11.1/src/channel.c:1672-1739 | the flush loop unlinks the packets of a stream and counts discarded octets and refund |
| Sessions.Session.Ask | libssh2-1.11.1/src/packet.c:1402-1442 | unlinks the first packet of a type that carries an id, and reports whether there was one |
| Sessions.Session.Clear | libssh2-1.11.1/src/channel.c:2855-2864 | the clearing loop of a free leaves exactly the packets that are not data for the channel |
| Sessions.Channel.AddData | libssh2-1.11.1/src/packet.c:1032-1092 | data is dropped, truncated to packet size and window, or queued whole, with its payload unread, and counted; `ChannelReading.PayloadIsQueued` says what is then found in the queue |
| Sessions.Channel.ReceiveWindowAdjust | libssh2-1.11.1/src/channel.c:1869-1931 | queues, sends, parks or defers an adjustment as specified |
| Sessions.Channel.WindowRead | libssh2-1.11.1/src/channel.c:2921-2967 | the octets recomputed from the list are the octets queued for the channel |
| Sessions.Channel.Read | libssh2-1.11.1/src/channel.c:2071-2225 | a read does to the whole session what its specification says; `ChannelReading` says that these are the payloads of the peer |
| Sessions.Channel.Flush | libssh2-1.11.1/src/channel.c:1669-1759 | a flush, first entry or resumed, does to the whole session what its specification says |
| Sessions.Channel.Write | libssh2-1.11.1/src/channel.c:2335-2468 | a write, idle or resumed, does to the whole session what its specification says |
| Sessions.Channel.ExtendedData | libssh2-1.11.1/src/channel.c:1997-2020 | switching the handling of extended data changes the mode of the channel and nothing else |
| Sessions.Channel.SendEof | libssh2-1.11.1/src/channel.c:2495-2519 | marks the end of data only once the transport accepted it |
| Sessions.Channel.Close | libssh2-1.11.1/src/channel.c:2646-2727 | a close does to the whole session what its specification says, the wait for the peer included |
| Sessions.Channel.AwaitClose | libssh2-1.11.1/src/channel.c:2700-2707 | the wait handles messages until the peer's CLOSE, a message of non-zero type, the end of the drain, or not at all without a connection |
| Sessions.Channel.ProcessStartup | libssh2-1.11.1/src/channel.c:1525-1626 | a startup, in any of its states, does to the whole session what its specification says, the messages received while it waits included |
| Sessions.Channel.ContinueOpen | libssh2-1.11.1/src/channel.c:210-350 | one attempt at an opening sends the request if it was not sent, waits for the reply and reads the terms off it, and unlinks the channel again if it failed |
| Sessions.Channel.Free | libssh2-1.11.1/src/channel.c:2815-2891 | a free closes, clears the queue and unlinks the channel from the list it is in, or changes neither list nor queue if it would block |
| Bits.XorCancels | libssh2-1.11.1/src/chacha.c:48 | adding the same number twice by exclusive or changes nothing |
| Bits.XorOfWords | libssh2-1.11.1/src/chacha.c:31-43 | adding words and storing them least octet first is adding their octets |
| Bits.LittleIsReversed | libssh2-1.11.1/src/chacha.c:31-43 | a word is stored least octet first: in the reverse of the order of `StoreU32` |
| Bytes.LoadOfStore | libssh2-1.11.1/src/misc.c:226-259 | a 32-bit number stored most significant octet first is read back |
| ChaChaBlock.QuarterRound | libssh2-1.11.1/src/chacha.c:52-56 | the in-place quarter round computes the function of section 2.1 of RFC 8439 on four words of the state |
| ChaChaBlock.QuarterMeans | libssh2-1.11.1/src/chacha.c:52-56 | the quarter round is the four lines of section 2.1 of RFC 8439, one after the other on the state |
| ChaChaBlock.BlockMeans | libssh2-1.11.1/src/chacha.c:131-172 | a block is the state after eighty quarter rounds, twenty rounds of the four columns and the four diagonals of the state in turn, added to the state before them |
| ChaChaBlock.Core | libssh2-1.11.1/src/chacha.c:131-172 | twenty rounds on a copy of the state, added to the state, which is left alone |
| ChaCha.CryptAt | libssh2-1.11.1/src/chacha.c:94-224 | octet i of the output is octet i of the input plus octet i mod 64 of keystream block i div 64 |
| ChaCha.CryptTwice | libssh2-1.11.1/src/chacha.c:94-224 | running the cipher twice from the same state is the identity |
| ChaCha.CryptSplits | libssh2-1.11.1/src/chacha.c:206-221 | a call of whole blocks followed by another call is one call |
| ChaCha.AdvanceCounts | libssh2-1.11.1/src/chacha.c:191-195 | the two-word counter counts blocks modulo 2^64 and no other word changes |
| ChaCha.BlocksIsCeiling | libssh2-1.11.1/src/chacha.c:206-221 | the number of blocks is the length divided by 64, rounded up |
| ChaCha.ResetUndoes | libssh2-1.11.1/src/chacha.c:85-91 | resetting the nonce and running again undoes the first run |
| ChaCha.AddBlock | libssh2-1.11.1/src/chacha.c:174-189 | adding sixteen words of a buffer is adding its 64 octets to the keystream |
| ChaCha.EncryptBlocks | libssh2-1.11.1/src/chacha.c:120-223 | the block loop, in place or not, with its detour for a partial block, writes exactly the encrypted octets and leaves the rest of the buffer |
| ChaCha.Chacha.EncryptBytes | libssh2-1.11.1/src/chacha.c:94-224 | refines the pure stream for every length and advances the stored counter by the number of blocks |
| ChaCha.Chacha.KeySetup | libssh2-1.11.1/src/chacha.c:58-82 | lays out constants and key for 256 and 128 bits and keeps counter and nonce |
| ChaCha.Chacha.IvSetup | libssh2-1.11.1/src/chacha.c:84-91 | sets counter and nonce, least octets first, and keeps the key |
| ChaCha.KeyIsLaidOut | libssh2-1.11.1/src/chacha.c:58-82 | stored least octet first, the state begins with the constant for the size of the key and the key, twice if it is short, and keeps its counter and nonce |
| ChaCha.IvIsLaidOut | libssh2-1.11.1/src/chacha.c:84-91 | the state ends with the nonce after the counter, which is 0 if none is given, and keeps constant and key |
| ChaChaPoly.OpensIffSealed | libssh2-1.11.1/src/cipher-chachapoly.c:50-104 | a packet opens to some octets if and only if it is those octets sealed under the same sequence number |
| ChaChaPoly.LengthAgrees | libssh2-1.11.1/src/cipher-chachapoly.c:107-123 | the length read ahead is the length in the packet |
| ChaChaPoly.PeersAgree | libssh2-1.11.1/src/cipher-chachapoly.c:50-123 | two ends with the same keys read each other's packets and lengths whatever either has sent before |
| ChaChaPoly.SealedAt | libssh2-1.11.1/src/cipher-chachapoly.c:50-104 | octet by octet: a header octet is encrypted with its octet of the header key's stream from block 0 on, a body octet with its octet of the main key's stream from block 1 on, and the tag is keyed with the first half of block 0 of the main stream, where a block is given by key, counter and sequence number |
| ChaChaPoly.HeaderAt | libssh2-1.11.1/src/cipher-chachapoly.c:82-86 | octet i of the header is encrypted with octet i mod 64 of block i div 64 of the header's own stream |
| ChaChaPoly.BodyAt | libssh2-1.11.1/src/cipher-chachapoly.c:88-91 | octet i of the body is encrypted with octet i mod 64 of block 1 + i div 64 of the main stream |
| ChaChaPoly.TagKeyIsBlockZero | libssh2-1.11.1/src/cipher-chachapoly.c:59-68 | the key of the tag is the first half of block 0 of the main stream |
| ChaChaPoly.TagBlockIsApart | libssh2-1.11.1/src/cipher-chachapoly.c:59-91 | the block that keys the tag encrypts no octet of the body, for bodies short of a wrap of the counter |
| ChaChaPoly.AtBlockIsOne | libssh2-1.11.1/src/cipher-chachapoly.c:59-91 | key, sequence number and block counter determine the state of a block, and different counters give different states |
| ChaChaPoly.TimingsafeBcmp | libssh2-1.11.1/src/cipher-chachapoly.c:125-134 | the accumulating comparison returns 0 if and only if the octets are equal, and 1 otherwise |
| ChaChaPoly.ChachaPoly.Init | libssh2-1.11.1/src/cipher-chachapoly.c:30-38 | takes exactly 64 octets of key, the second half for the header |
| ChaChaPoly.ChachaPoly.Encrypt | libssh2-1.11.1/src/cipher-chachapoly.c:50-104 | writes the sealed packet, in place or not, and nothing else; `SealedAt` says what its octets are |
| ChaChaPoly.ChachaPoly.Decrypt | libssh2-1.11.1/src/cipher-chachapoly.c:50-104 | writes the opened packet if the tag is right, and leaves the destination untouched if it is not; `OpensIffSealed` and `SealedAt` say what it is |
| ChaChaPoly.ChachaPoly.GetLength | libssh2-1.11.1/src/cipher-chachapoly.c:107-123 | decrypts the length of a packet of at least four octets |
| CryptPacket.Wrapper.Crypt | libssh2-1.11.1/src/crypt.c:424-464 | seals a packet in place, or opens it in place and shifts it over its length field |
| CryptPacket.PacketSurvives | libssh2-1.11.1/src/crypt.c:452-458 | what follows the length field is in place at the receiver, but for the last four octets |
| CryptPacket.PaddingSurvivesIff | libssh2-1.11.1/src/crypt.c:452-458 | the last four octets survive if and only if they repeat the four before them |
| CryptPacket.PayloadSurvives | libssh2-1.11.1/src/crypt.c:424-477 | every octet of a payload with at least four octets of padding survives sealing, opening and shifting, and the length read ahead is right |
| Bits.RotateExchanges | libssh2-1.11.1/src/chacha.c:27-28 | a rotation by n exchanges the upper n bits of a word and the lower 32 - n |
| Blowfish.CipherInverse | libssh2-1.11.1/src/blowfish.c:116-165 | for arbitrary tables deciphering undoes enciphering and enciphering undoes deciphering |
| Blowfish.CiphersUndo | libssh2-1.11.1/src/blowfish.c:116-165 | the two networks over any tables meet the condition under which block, repeated and chained decryption undo encryption |
| Blowfish.EncipheredIsPublished | libssh2-1.11.1/src/blowfish.c:107-139 | the network of the code, which adds each subkey one round early, is the cipher as it was published: sixteen rounds of subkey, round function and exchange, the last exchange taken back, and two final subkeys; the round function takes the octets of a half, most significant first, through the four boxes |
| Blowfish.BlocksAt | libssh2-1.11.1/src/blowfish.c:559-585 | block k is words 2k and 2k + 1, in that order, and no block depends on another or is touched beyond n |
| Blowfish.CipherBlockMeans | libssh2-1.11.1/src/blowfish.c:589-631 | a block of octets is two numbers, the most significant octet of each first |
| Blowfish.BlocksUndone | libssh2-1.11.1/src/blowfish.c:559-585 | decrypting n blocks undoes encrypting them |
| Blowfish.TimesUndone | libssh2-1.11.1/src/bcrypt_pbkdf.c:83-84 | the repeated encryption of the hash can be undone by as many decryptions |
| Blowfish.CbcUndone | libssh2-1.11.1/src/blowfish.c:633-697 | chained decryption undoes chained encryption |
| Blowfish.StreamWordIsCyclic | libssh2-1.11.1/src/blowfish.c:447-466 | octet m of word k of a stream is the octet at 4k + m modulo its length |
| Blowfish.Stream2Word | libssh2-1.11.1/src/blowfish.c:447-466 | despite its lazy wrap the reader returns word k and stands at octet 4(k + 1) of the repeated stream |
| Blowfish.SchedulesAgree | libssh2-1.11.1/src/blowfish.c:468-546 | expanding with an all-zero salt of any length is expanding without a salt |
| Blowfish.ExpandedMeans | libssh2-1.11.1/src/blowfish.c:505-546 | every subkey is first combined with its word of the key; then every pair of the tables, in order, is the previous pair salted with the next two words of the salt and enciphered under the tables in which exactly the earlier pairs are final |
| Blowfish.Expanded0Means | libssh2-1.11.1/src/blowfish.c:468-503 | the same without the salt |
| Blowfish.Context.Encipher | libssh2-1.11.1/src/blowfish.c:116-139 | sixteen alternating rounds compute the Feistel network |
| Blowfish.Context.Decipher | libssh2-1.11.1/src/blowfish.c:142-165 | sixteen rounds backwards compute its inverse |
| Blowfish.Context.Expand0State | libssh2-1.11.1/src/blowfish.c:468-503 | the in-place schedule leaves the tables the specification says, each pair enciphered under the tables filled so far |
| Blowfish.Context.ExpandState | libssh2-1.11.1/src/blowfish.c:505-546 | the same with every pair salted by the next two words of the salt |
| Blowfish.Context.Enc | libssh2-1.11.1/src/blowfish.c:559-571 | enciphers n blocks in place |
| Blowfish.Context.Dec | libssh2-1.11.1/src/blowfish.c:574-585 | deciphers n blocks in place |
| BlowfishCbc.CbcDecAt | libssh2-1.11.1/src/blowfish.c:658-697 | each block of a chained decryption depends only on its own and the previous input block, so any order will do |
| BlowfishCbc.CbcEncrypt | libssh2-1.11.1/src/blowfish.c:633-656 | encrypts n blocks in place, forwards, chaining through the buffer itself |
| BlowfishCbc.CbcDecrypt | libssh2-1.11.1/src/blowfish.c:658-697 | decrypts n blocks in place, backwards, for every n above 0 |
| BlowfishCbc.CbcRoundTrip | libssh2-1.11.1/src/blowfish.c:633-697 | encrypting and then decrypting in place restores the buffer |
| Bcrypt.BcryptHash | libssh2-1.11.1/src/bcrypt_pbkdf.c:54-98 | the hash is the magic text enciphered 64 times, stored least octet first, under the tables of the salted expansion after 128 more expansions, with the salt for even and the password for odd positions |
| Bcrypt.HashMeans | libssh2-1.11.1/src/bcrypt_pbkdf.c:54-98 | the same of the function that specifies it: a left fold of the plain expansion over the 128 alternating keys, the salt first |
| Bcrypt.Derive | libssh2-1.11.1/src/bcrypt_pbkdf.c:146-165 | the inner loop computes a block of PBKDF2 as section 5.2 of RFC 8018 defines it |
| Bcrypt.LayoutFits | libssh2-1.11.1/src/bcrypt_pbkdf.c:124-125 | the ceiling divisions give at most 32 rows, the last one short but not empty |
| Bcrypt.LeftSteps | libssh2-1.11.1/src/bcrypt_pbkdf.c:170-178 | each pass writes some octets, exactly those missing afterwards |
| Bcrypt.LeftEnds | libssh2-1.11.1/src/bcrypt_pbkdf.c:137-178 | octets are left exactly as long as there are columns, so the loop ends after exactly stride passes |
| Bcrypt.LandsInside | libssh2-1.11.1/src/bcrypt_pbkdf.c:171-175 | octet i of a pass lands inside the key if and only if the pass is to write it |
| Bcrypt.LandsApart | libssh2-1.11.1/src/bcrypt_pbkdf.c:172 | no two octets land in the same place |
| Bcrypt.Scatter | libssh2-1.11.1/src/bcrypt_pbkdf.c:170-178 | one pass, by its bound or its early break, fills exactly its column and never reads past the block |
| Bcrypt.Generate | libssh2-1.11.1/src/bcrypt_pbkdf.c:136-179 | after exactly stride passes every octet of the key was written once, octet k with octet k div stride of block k mod stride + 1 |
| Bcrypt.BcryptPbkdf | libssh2-1.11.1/src/bcrypt_pbkdf.c:100-190 | rejects what it must reject, and otherwise writes every octet of the key exactly once: octet k is octet k div stride of block k mod stride + 1 of PBKDF2 with the digest of the password, over the salt and the number of the block in four octets |
| KnownHostFormat.KeyRestored | libssh2-1.11.1/src/knownhost.c:774-830 | parsing the written key half restores type, type name, key and comment, empty and absent comments kept distinct |
| KnownHostFormat.KnownNames | libssh2-1.11.1/src/knownhost.c:783-797 | every known type is written under a name that is read back as that type |
| KnownHostFormat.ReadRestoresWrittenIff | libssh2-1.11.1/src/knownhost.c:1003-1166 | reading the line written for a well-formed plain or hashed entry adds exactly that entry if and only if the reader takes the lengths of its name and of its key half, and nothing otherwise |
| KnownHostFormat.NamesAdded | libssh2-1.11.1/src/knownhost.c:620-674 | a field of n comma-free names adds exactly n entries, the last name first |
| KnownHostFormat.ShortNameIsLost | libssh2-1.11.1/src/knownhost.c:676-732 | a name of one or two octets is taken for a hashed one and nothing is added, whatever comes later in the line |
| KnownHosts.VerdictMeans | libssh2-1.11.1/src/knownhost.c:351-497 | a match means that some entry agrees under some form of the host; a mismatch that none does but one is relevant |
| KnownHosts.VerdictIsUnique | libssh2-1.11.1/src/knownhost.c:351-497 | the specification of a check leaves no choice of verdict or entry |
| KnownHosts.VerdictIff | libssh2-1.11.1/src/knownhost.c:351-497 | a check is a match with an entry if and only if that is the first to hold the key for a name of the host, "[host]:port" for all entries before the plain host; a mismatch naming an entry if and only if none holds the key and that is the first to concern a name of the host; and not found if and only if none concerns any |
| KnownHosts.BracketedIff | libssh2-1.11.1/src/knownhost.c:370-385 | the form with a port is the host in brackets, a colon, and the decimal numeral of the port |
| KnownHosts.DecimalIsNumeral | libssh2-1.11.1/src/knownhost.c:374 | the port is written in digits of its value, folded from the most significant one, with no leading zero |
| KnownHosts.NumeralIsDecimal | libssh2-1.11.1/src/knownhost.c:374 | there is no other such numeral |
| KnownHosts.Hosts.Check | libssh2-1.11.1/src/knownhost.c:351-497 | the two-pass search returns the specified verdict and the first such entry in order of forms and entries, which `VerdictIff` states outright |
| KnownHosts.Hosts.OldstyleHostline | libssh2-1.11.1/src/knownhost.c:620-674 | the backward walk adds the names the specification says, up to one that is too long |
| KnownHosts.Hosts.HashedHostline | libssh2-1.11.1/src/knownhost.c:676-732 | splits salt and hash with the code's unsigned lengths, and rejects long ones |
| KnownHosts.Hosts.Hostline | libssh2-1.11.1/src/knownhost.c:744-848 | the walks over the key half find type, key and comment, and the host goes to the parser for its form |
| KnownHosts.Hosts.Readline | libssh2-1.11.1/src/knownhost.c:879-948 | the walks over a line do to the collection what the specification of a line says |
| KnownHosts.Hosts.Writeline | libssh2-1.11.1/src/knownhost.c:1003-1166 | writes the line if it fits with its terminating zero, and reports its exact length either way |
| Agent.ParseOfEncoded | libssh2-1.11.1/src/agent.c:664-733 | parsing encoded identities finds exactly those, whatever follows |
| Agent.EncodedOfParse | libssh2-1.11.1/src/agent.c:664-733 | what a parse finds is encoded at the front of the response, and it is complete exactly if it found as many as announced |
| Agent.ResponseAcceptedIff | libssh2-1.11.1/src/agent.c:644-735 | a response is accepted with some identities if and only if it starts with a well-formed answer listing them |
| Agent.Client.ListIdentities | libssh2-1.11.1/src/agent.c:610-742 | succeeds exactly on a well-formed answer and appends the identities found, in order |
| Agent.Client.ReadIdentity | libssh2-1.11.1/src/agent.c:664-733 | one turn of the loop takes one pair within the budget, or nothing |

## Left out

- Sockets, timeouts, blocking mode, allocation failure and debug tracing: the surroundings of a call only.
- The transport's own state (a partly written packet, key exchange, strict-KEX checks): an accepted send is one packet on the wire.
- Sessions.Session.Add: leaves out the extended-data mode that discards (`packet.c:988-1027`), which refunds window from inside the transport; the exit status and exit signal that a channel request may carry, which have no field here (the request is answered); global requests with their replies and openings of x11 and agent channels, whose packets bear no channel's id or a new one; a connection the peer opens is handled by `Sessions.Session.QueueListener`, between calls rather than in the middle of a drain.
- Sessions.Session.Receive: handles the messages whose replies the transport accepts; one whose reply blocks ends the drain with EAGAIN and is among the messages of a later call, one whose reply fails ends it with the error and has no effect.
- Sessions.Channel.ExtendedData: covers the modes that keep extended data apart and merge it, not the one that discards.
- Sessions.Channel.ProcessStartup: the reply a startup waits for comes with its surroundings instead of off the queue; the messages that arrive meanwhile are handled.
- Sessions.Channel.ContinueOpen: the reply an opening waits for comes with its surroundings instead of off the queue, as the octets that arrived; what they say is read off them here.
- Sessions.Session.BeginOpen: asks for an id that is new, which `Sessions.Session.NextIdIsNew` provides for the first 2^32 allocations; `ChannelTable` says what happens to ids after that.
- pty, environment, X11 and signal requests, which follow the same pattern as a process startup but for the one-request rule.
- Cancelling a listener, which frees its queued channels one by one.
- Sessions.Session.QueueListener: takes the fields of the peer's request as decoded; a refusal belongs to no channel and does not appear in the trace. It asks for a new id, as `Sessions.Session.Open` does, which `Sessions.Session.NextIdIsNew` provides for the first 2^32 allocations.
- Sessions.Session.Open: the channel that the session remembers between the calls of one opening is passed back by the caller, so that more than one opening at a time is covered too; it asks for a new id as `Sessions.Session.BeginOpen` does.
- ChannelEnding.OrderHolds: is stated for disciplined runs and for the packets of the stream (data, EOF and CLOSE); `EofKeepsOrderIff` and `ShutKeepsOrderIff` show that the discipline is necessary call by call, and `ChannelSilence` covers the other packets.
- ChannelReceiving.AccountHolds: is stated for runs with faithful adjustments and first-entry flushes; `AdjustKeepsAccountIff` and `ResumedFlushBreaksAccount` show that both are necessary.
- ChannelReceiving.ReadWidensWindowIff: is stated for adjustments that start afresh and that the transport accepts.
- ChannelReading.ReadsArePayloads: is stated for data messages laid out as section 5.2 of RFC 4254 says, and for a reader that nothing else takes from: no competing reader or flush of its stream, and a channel that stays in the session. What becomes of other messages is in `ChannelReceiving`.
- ChannelReading.FlushMeans: is stated for the first entry of a flush; a resumed one leaves the queue alone (`ChannelReceiving.FlushKeepsAccountIff`).
- Deprecated calls that only rename the modelled ones.
- The listeners of a session are records in its list rather than objects of their own; nothing else refers to them.
- Blowfish.Context.Encipher: groups the sixteen unrolled rounds in pairs and eights.
- ChaChaBlock.Core: keeps the sixteen local words of the source in a scratch array.
- CryptPacket.Wrapper.Crypt: asks for a size of at least four octets, below which the source subtracts beyond zero.
- KnownHosts.Hosts.Readline: takes a line as `fgets` delivers it: no zero octet, a newline at most at its end.
- KnownHostFormat.ReadRestoresWrittenIff: leaves out RSA1 keys, and type names that begin a known one; base64 is assumed to undo itself on the name and the salt.
- Adding a host through the public calls, deleting one, and reading or writing whole files of known hosts.
- Agent.Client.ListIdentities: starts from the response; the exchange with the agent is not part of this model. Sizes are 64-bit.
- SHA-512, HMAC-SHA1, Poly1305, base64 and the contents of the Blowfish tables.
