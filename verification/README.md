# Windows IOCP UDP: a verified model

This project models the networking and game-state core of a UDP shooter in Dafny and proves what
that core is for. Code that changes fields in place is a class with those fields, proved against a
specification function of its old state; the theorems are about those functions and about runs of
them. Run `dafny verify dfyconfig.toml` here to check everything.

## What is modelled

**Reliable transport** (`SequenceNumber`, `ReliableUdpProtocol`, `ReliableUdpSendWindow`,
`ReliableUdpSession`, `ReliableUdpSessionRegistry`, `ReliableUdpSessionRuns`). 32-bit sequence numbers that wrap, a
window of 33 acknowledgements, a send window with timed resends and giving up, and a table of sessions
some of which are closing. Fields hold the wrapped numbers the program holds; `ReceiveHistory` and
`SendLedger` keep the unwrapped integers beside them, and the invariants say that the two agree.
`ReliableConversation` puts two sessions on a network that may lose, delay, duplicate and reorder:
a growing set of datagrams, any of which may be delivered at any time. Its main result is when every
packet acknowledged is one that the peer reported: exactly when each delivery says so, and always below
2^31 allocated sequences. `ReliableConversationFalseAck` is a run beyond that which acknowledges falsely.
Conversely, each ack removes all that its builder had received, as far as its 32 bits reach.

**Envelopes and replay** (`PacketWire`, `ReliableUdpPacket`, `AuthenticatedUdpPacket`,
`PacketReplayGuard`). Byte-level writers, readers, headers and the two nested envelopes with their
round trips in both directions, and a 256-wide replay window that refines a set. Bit fields are
sequences of Booleans, tied to their wire value by `BitWindow`.

**Snapshots** (`SnapshotBroadcastBuilder`, `SnapshotChunkAssembler`). Lists are cut into numbered
packets and put together again under loss, repetition and reordering. Chunks carry any data.

**Server state machine** (`PeerRoomManager`, `AuthenticatedAccountRegistry`,
`AccountLoginAdmissionService`, `PeerSessionService`, `PlayerCommandService`, `GameWorld`,
`StatePool`, `GameSimulation`, `MatchHistoryTracker`, `UdpServerModel` and the modules after it).
Seven tables, and one atomic step for every section that the program runs under its state mutex.
`UdpServerInvariants` says what it means for the tables to agree; `UdpServerRequests`,
`UdpServerDepartures`, `UdpServerRuns`, `UdpServerPlayerIds` and `UdpServerTransients` prove that every
step keeps it and draw the consequences for every run, among them that the branches that log a failed
match-history entry or leave cannot be reached; `UdpServerIdInUse` is a run that ends in the one join that
does not keep it. What the steps do is pinned by what they are for, without naming their own functions:
`GameSimulationAccounts` and `UdpServerTicks` say in closed form what a tick does to each bullet, player and
score, `UdpServerTimeouts` who times out by when it was last heard from, `UdpServerMatchTimes` what completed
matches say, `UdpServerAnswers` what clients are told, and `UdpServerSessions` that every session is the
product of what reached its own endpoint. The class `UdpServer` runs the sections
themselves, in place, over the classes of the tables; each is proved to be one step of the state machine.

**Movement and client prediction** (`WorldCollision`, `RoomLayout`, `Arena`,
`LocalPlayerReconciliation`, `RemotePlayerInterpolationBuffer`). Floats are reals. Directions of
movement and aim are arbitrary vectors, so the results hold for any of them.

Where a step depends on an order or a choice that the program leaves to a hash table, the order or
the choice is a parameter of the step, and the result holds for all of them. The methods report the
one they took as a ghost result.

## Where the program promises more than it keeps

- Delivery at most once. `ProcessReceivedDataHeader` takes any sequence more than 32 behind the
  newest for new (Common/Net/Reliable/ReliableUdpSession.h:165-173).
  `ReliableUdpSession.DeliveredTwiceOutsideTheWindow` is a run in which that happens, and
  `ReliableConversation.DeliveredAtMostOnceInsideTheWindow` the exact condition.
- Newer ticks first. The comment at Common/Net/Snapshot/SnapshotChunkAssemblerCore.h:208-209 speaks
  of newer snapshots taking precedence, but a chunk with another count resets the active assembly
  even when its tick is older, so the applied tick can be delivered again
  (`SnapshotChunkAssembler.AppliedTickCanBeDeliveredAgain`). Ticks never decrease, and
  `AheadIffNoStepBack` says exactly which chunk breaks the strict increase.
- Whole snapshots. Chunk numbers are cut to 16 bits (Server/Protocol/SnapshotBroadcastBuilder.cpp:52-53),
  so a list of more than 65535 chunks is never reassembled; `ReassemblyIsExact` and
  `AllPacketsDeliverTheList` have both directions, and
  `SnapshotBroadcastBuilder.OversizedListIsDeliveredCut` is an input for which one packet passes for
  the whole list.
- Replay protection. An accepted sequence can be New again (`PacketReplayGuard.ReplayIsNewInARun` is a
  run). `PacketReplayGuard.ReplayIsNewIff` is the exact condition; until the newest is 2^32 past the
  sequence it comes down to more than 2^31 past it.
- No false acks. A session that has received nothing acknowledges sequence 0, and once 2^32 sequences
  are allocated that is the sequence of a packet (Common/Net/Reliable/ReliableUdpSession.h:89-101,
  Common/Net/Reliable/ReliableUdpProtocol.h:14-52): `ReliableConversationFalseAck.FalseAckInARun` is a
  run in which the very first packet from the other side acknowledges a packet that was never received.
  `ReliableConversation.NoFalseAckIff` is the exact condition for all runs; below 2^31 allocated
  sequences it always holds (`NoFalseAckInShortConversations`).
- One player for each peer. Player ids wrap (Server/Game/GameWorld.cpp:19-22), and a join may then be
  given an id in use (`UdpServerIdInUse.JoinFindsIdInUseInARun` is a run). `UdpServerRequests.JoinKeepsIff`
  says that no other join breaks the tables' agreement, and `UdpServerPlayerIds.FewJoinsMakeARun` that
  it takes 2^32 joins.
- A client that is never corrected. A 257th unconfirmed input drops the history
  (Client/Game/LocalPlayerReconciliation.cpp:55-75); `RecordingStaysInStepIff` and
  `OverflowSnapsToServer` say when and with what result.
- Shifting by the full width. At distance 32 the ack field is shifted by 32 bits
  (Common/Net/Reliable/ReliableUdpProtocol.h:88), which C++ leaves undefined for a 32-bit value. The
  model takes the meaning that the comment above that line gives, under which all old bits fall out.

## Model

| member | source | states |
|---|---|---|
| `SequenceNumber.NewerIsSerialOrder` | Common/Net/SequenceNumber.h:12-25 | The branches decide exactly the comparison of section 3.2 of RFC 1982 with 32 serial bits: newer means ahead by more than 0 and less than half the range; two numbers are incomparable only when equal or exactly half the range apart; never newer both ways |
| `SequenceNumber.NewerIsGreater` | Common/Net/SequenceNumber.h:12-35 | For unwrapped numbers that 32 bits can tell apart the wrapped order, equality and subtraction are those of the integers |
| `SequenceNumber.UnwrapFinds` | Common/Net/SequenceNumber.h:12-25 | A 32-bit value and a reference determine the unwrapped number: the one near the reference is found again from its wrapped value |
| `SequenceNumber.OrderIsNotTransitive` | Common/Net/SequenceNumber.h:12-25 | The order is no total order: three numbers that are newer than each other in a ring |
| `ReliableUdpProtocol.AckWindowIsExact` | Common/Net/Reliable/ReliableUdpProtocol.h:14-117 | After any sequence of observations from the start, bit i-1 of the field is set if and only if the unwrapped number latest-i was observed, for 1 to 32, across every wrap-around |
| `ReliableUdpProtocol.ObserveShows` | Common/Net/Reliable/ReliableUdpProtocol.h:62-107 | One observation of any number that 32 bits can place keeps the window equal to the history of everything seen, whether it is newer, older, a repeat or out of the window |
| `ReliableUdpProtocol.AckedIsSeenInWindow` | Common/Net/Reliable/ReliableUdpProtocol.h:14-52 | A sequence counts as acknowledged if and only if it was really seen and lies at most 32 behind the newest |
| `ReliableUdpProtocol.AlreadyReceivedIffInWindow` | Common/Net/Reliable/ReliableUdpProtocol.h:14-117 | After any sequence of observations the next sequence is taken for already received if and only if its number was seen and is at most 32 behind the newest: exact condition under which a repeat is noticed |
| `ReliableUdpProtocol.ReliableAckTracker.ObserveReceivedSequence` | Common/Net/Reliable/ReliableUdpProtocol.h:62-107 | In-place update of the newest sequence and the bit field; beside the fields, the history of unwrapped numbers grows by exactly the observed one |
| `ReliableUdpProtocol.ReliableAckTracker.IsAcked` | Common/Net/Reliable/ReliableUdpProtocol.h:109-117 | Answers from the fields what the history says: seen, and at most 32 behind the newest |
| `ReliableUdpProtocol.ReliableAckTracker.Reset` | Common/Net/Reliable/ReliableUdpProtocol.h:55-60 | Back to a window that has seen nothing |
| `PacketReplayGuard.GuardRefinesSet` | Common/Net/Auth/PacketReplayGuard.cpp:15-65 | After any sequence of observations the guard answers New, Duplicate or TooOld for any next sequence exactly as a set of accepted unwrapped numbers with a 256-wide window would |
| `PacketReplayGuard.ObserveRefines` | Common/Net/Auth/PacketReplayGuard.cpp:15-65 | One observation: the same answer as the reference set, and the bit window keeps showing that set |
| `PacketReplayGuard.RunShows` | Common/Net/Auth/PacketReplayGuard.cpp:7-65 | The bit window after any sequence of observations shows the set that accepts what the reference accepts |
| `PacketReplayGuard.ReplayIsNewIff` | Common/Net/Auth/PacketReplayGuard.cpp:15-65 | An accepted sequence, presented again at any later time, is New if and only if its distance behind the newest, modulo 2^32, is more than 2^31, or is less than 256 and leads to a number that was not accepted |
| `PacketReplayGuard.ReplayIsNewOnlyPastHalfRange` | Common/Net/Auth/PacketReplayGuard.cpp:15-65 | The same before the sequence space has gone round once, that is while the newest is less than 2^32 past it: New if and only if the newest is more than 2^31 past it |
| `PacketReplayGuard.ReplayIsNewInARun` | Common/Net/Auth/PacketReplayGuard.cpp:15-65 | Concrete run in which an accepted 0 is New again, and then, a full range past it, a Duplicate |
| `PacketReplayGuard.SeenIsDuplicate` | Common/Net/Auth/PacketReplayGuard.cpp:15-65 | What was just answered New or Duplicate is a Duplicate right afterwards |
| `PacketReplayGuard.PacketReplayGuard.ObserveSequence` | Common/Net/Auth/PacketReplayGuard.cpp:15-65 | In-place window update: its verdict and the set it now stands for are those of the reference |
| `PacketReplayGuard.PacketReplayGuard.TryAccept` | Common/Net/Auth/PacketReplayGuard.cpp:67-70 | True exactly for New, with the same state change |
| `PacketReplayGuard.PacketReplayGuard.Reset` | Common/Net/Auth/PacketReplayGuard.cpp:7-13 | Back to a guard that has accepted nothing |
| `PacketWire.DigitsAreReadBack` | Common/Packet/Serialization/PacketWriter.h:42-54 | Little-endian bytes of a number read back to the number, for every width |
| `PacketWire.NumberIsWrittenBack` | Common/Packet/Serialization/PacketReader.h:46-79 | Bytes read as a number are written back as the same bytes, for every width |
| `PacketWire.CombineIsNumber` | Common/Packet/Serialization/PacketReader.h:46-79 | The reader's shift-and-or expression is the little-endian number of its bytes |
| `PacketWire.HeaderLayout` | Common/Packet/Serialization/PacketSerializationCore.h:50-55 | Where the header's fields lie on the wire: size, type, version, two bytes each, the lowest first |
| `PacketWire.PacketWriter.WriteUInt16` | Common/Packet/Serialization/PacketWriter.h:42-46 | Appends the two little-endian bytes of the value and nothing else |
| `PacketWire.PacketWriter.WriteUInt32` | Common/Packet/Serialization/PacketWriter.h:48-54 | Appends the four little-endian bytes of the value and nothing else |
| `PacketWire.PacketReader.ReadUInt8` | Common/Packet/Serialization/PacketReader.h:33-44 | Succeeds exactly if a byte is left; advances by one; on failure moves nowhere |
| `PacketWire.PacketReader.ReadUInt16` | Common/Packet/Serialization/PacketReader.h:46-59 | Succeeds exactly if two bytes are left, and then yields their little-endian number; a failure consumes what was left |
| `PacketWire.PacketReader.ReadUInt32` | Common/Packet/Serialization/PacketReader.h:61-79 | Succeeds exactly if four bytes are left, and then yields their little-endian number; a failure consumes what was left |
| `PacketWire.HeaderRoundTrip` | Common/Packet/Serialization/PacketSerializationCore.h:50-94 | A written header in front of any bytes is read back as itself |
| `PacketWire.HeaderBytesRoundTrip` | Common/Packet/Serialization/PacketSerializationCore.h:50-94 | Header bytes that were read are written back byte for byte |
| `PacketWire.FlagsAreReadBack` | Common/Packet/Serialization/PacketSerializationCore.h:18-48 | Both flags and the protocol number survive in the version field |
| `PacketWire.VersionIsFlags` | Common/Packet/Serialization/PacketSerializationCore.h:18-48 | A version field with the current protocol number is nothing but its two flags and that number |
| `PacketWire.WritePacketHeader` | Common/Packet/Serialization/PacketSerializationCore.h:50-55 | Drives the writer through size, type and flagged version: exactly the six header bytes are appended |
| `PacketWire.ReadPacketHeader` | Common/Packet/Serialization/PacketSerializationCore.h:57-77 | Drives the reader through the header; fails exactly when six bytes are not left |
| `PacketWire.DeserializePacketHeader` | Common/Packet/Serialization/PacketSerializationCore.h:79-94 | The header of a buffer, or nothing for a buffer shorter than a header |
| `PacketWire.TableListsReliableTypes` | Common/Packet/PacketReliability.h:15-73 | The types named as reliable are exactly the table's reliable entries, and every value past the table is unreliable |
| `ReliableUdpPacket.ReliableHeaderRoundTrip` | Common/Net/Reliable/ReliableUdpPacketSerialization.h:11-23 | Sequence, ack and 32 ack bits written anywhere in a packet are read back |
| `ReliableUdpPacket.ReliableHeaderLayout` | Common/Net/Reliable/ReliableUdpPacketSerialization.h:11-16 | Where its fields lie on the wire: sequence, acknowledged sequence and ack field, four bytes each, the lowest first, bit i of the field as bit i of its number |
| `ReliableUdpPacket.ReliableHeaderBytesRoundTrip` | Common/Net/Reliable/ReliableUdpPacketSerialization.h:11-23 | The twelve bytes of any header are reproduced from what was read |
| `ReliableUdpPacket.WriteReliableUdpPacketHeader` | Common/Net/Reliable/ReliableUdpPacketSerialization.h:11-16 | Drives the writer: exactly the twelve header bytes are appended |
| `ReliableUdpPacket.ReadReliableUdpPacketHeader` | Common/Net/Reliable/ReliableUdpPacketSerialization.h:18-23 | Drives the reader: succeeds exactly if twelve bytes are left, and consumes them |
| `ReliableUdpPacket.WrapThenParse` | Common/Net/Reliable/ReliableUdpPacketBuilder.h:43-235 | Wrapping succeeds if and only if the packet is a plain packet of a reliable type that fits with the added header; and then parsing and rebuilding give back header, type, payload and the game packet byte for byte |
| `ReliableUdpPacket.ParseThenWrap` | Common/Net/Reliable/ReliableUdpPacketBuilder.h:43-235 | The converse: a parsed packet of a reliable type, not authenticated and within the limit, is reproduced exactly by wrapping what was rebuilt from it |
| `ReliableUdpPacket.AckPacketThenParse` | Common/Net/Reliable/ReliableUdpPacketBuilder.h:116-200 | A bare ack packet parses to its header, type None and no payload |
| `ReliableUdpPacket.BuildReliableUdpPacket` | Common/Net/Reliable/ReliableUdpPacketBuilder.h:43-114 | Guards in order, then frame, reliable header and payload through the writer: the wrapped packet of the round trips, or none |
| `ReliableUdpPacket.BuildReliableUdpAckPacket` | Common/Net/Reliable/ReliableUdpPacketBuilder.h:116-142 | Always yields the ack packet of the round trips |
| `ReliableUdpPacket.ParseReliableUdpPacket` | Common/Net/Reliable/ReliableUdpPacketBuilder.h:144-200 | The view of the round trips, or none for a short, foreign, mis-sized, unflagged or mistyped packet |
| `ReliableUdpPacket.BuildGamePacketFromReliableUdpPacketView` | Common/Net/Reliable/ReliableUdpPacketBuilder.h:202-235 | The game packet of the round trips, or none for an unreliable type or an oversized payload |
| `AuthenticatedUdpPacket.EnvelopesRoundTrip` | Common/Net/Auth/AuthenticatedUdpPacket.cpp:13-188 | Both envelopes at once: a game packet gets through wrapping and authenticating if and only if it is of a reliable type and at most 1152 bytes; then parse, verify, strip, parse and rebuild give back its bytes, its reliable header and its auth sequence |
| `AuthenticatedUdpPacket.AuthenticateThenStrip` | Common/Net/Auth/AuthenticatedUdpPacket.cpp:13-188 | Authenticating succeeds if and only if the packet is whole, not yet authenticated, fits with its trailer and the token is valid; the result parses, verifies under the token and strips to the original |
| `AuthenticatedUdpPacket.TrailerLayout` | Common/Net/Auth/AuthenticatedUdpPacket.cpp:13-100 | Where its parts lie on the wire: the packet under its new header, the sequence in four bytes, the lowest first, and the tag of all that precedes it |
| `AuthenticatedUdpPacket.StripThenAuthenticate` | Common/Net/Auth/AuthenticatedUdpPacket.cpp:13-188 | A verified packet within the limit, stripped and authenticated again under its token and sequence, is the same packet byte for byte |
| `AuthenticatedUdpPacket.ParsedIffSigned` | Common/Net/Auth/AuthenticatedUdpPacket.cpp:91-137 | What parses is exactly what carries a whole packet, a sequence and a tag, whoever signed it |
| `AuthenticatedUdpPacket.VerifiedIffAuthentic` | Common/Net/Auth/AuthenticatedUdpPacket.cpp:13-148 | What parses and verifies is exactly what was authenticated under the token |
| `AuthenticatedUdpPacket.BuildAuthenticatedUdpPacket` | Common/Net/Auth/AuthenticatedUdpPacket.cpp:13-89 | Re-heads the packet, appends sequence and tag: the wire packet of the round trips, or none |
| `AuthenticatedUdpPacket.ParseAuthenticatedUdpPacket` | Common/Net/Auth/AuthenticatedUdpPacket.cpp:91-137 | The view of the round trips, or none for a short, foreign, mis-sized or unflagged packet |
| `AuthenticatedUdpPacket.BuildUnauthenticatedUdpPacket` | Common/Net/Auth/AuthenticatedUdpPacket.cpp:150-188 | The stripped packet of the round trips, or none |
| `SendLedger.EveryRunConserves` | Common/Net/Reliable/ReliableUdpSendWindow.h:75-179 | Over any sequence of allocations, sends, acks and resend passes under a fixed configuration: each registered packet is in exactly one of pending, acked and given up; pending numbers strictly increase and stay within the limit; each packet was sent at least once and at most 1 + maxResendCount times, consecutive sends at least the interval apart, and it was given up only after all of its resends |
| `SendLedger.StepConserves` | Common/Net/Reliable/ReliableUdpSendWindow.h:75-179 | Any one operation keeps all of that from any state in which it holds |
| `SendLedger.PassIsAccountedFor` | Common/Net/Reliable/ReliableUdpSendWindow.h:151-179 | In every reachable window: the ids whose send times a pass extends are exactly those of the packets it hands out, in the order of their numbers, and the ids that join the given up are exactly those of the packets it gives up |
| `ReliableUdpSendWindow.ReliableUdpSendWindow.AllocateSequence` | Common/Net/Reliable/ReliableUdpSendWindow.h:75-81 | Hands out the next sequence, wrapping past 32 bits |
| `ReliableUdpSendWindow.ReliableUdpSendWindow.RegisterSentPacket` | Common/Net/Reliable/ReliableUdpSendWindow.h:83-98 | Appends the packet unless the window is full or the buffer empty |
| `ReliableUdpSendWindow.ReliableUdpSendWindow.CanProcessAck` | Common/Net/Reliable/ReliableUdpSendWindow.h:140-149 | Refuses acks of sequences never allocated; 0 passes as nothing received |
| `ReliableUdpSendWindow.ReliableUdpSendWindow.ProcessAck` | Common/Net/Reliable/ReliableUdpSendWindow.h:118-138 | Removes exactly the acknowledged packets, in place and in order, unless the ack is refused |
| `ReliableUdpSendWindow.ReliableUdpSendWindow.ExtractResendResult` | Common/Net/Reliable/ReliableUdpSendWindow.h:151-179 | One pass: packets waiting stay, due ones are resent and restamped, exhausted ones are given up; both lists and what remains, in order |
| `ReliableUdpSendWindow.PassHandsOutTheDue` | Common/Net/Reliable/ReliableUdpSendWindow.h:151-179 | The packets a pass hands out are exactly the pending ones last sent at least the interval ago with resends left: each once, in order, the same bytes under the same sequence, sent now for one more time |
| `ReliableUdpSendWindow.PassAbandonsTheExhausted` | Common/Net/Reliable/ReliableUdpSendWindow.h:151-179 | Those it gives up are exactly the ones last sent at least the interval ago with no resends left: each once, in order, as they were |
| `ReliableUdpSendWindow.PassLeavesTheOthers` | Common/Net/Reliable/ReliableUdpSendWindow.h:151-179 | All others stay pending, in order: the due ones as handed out, the rest as they were |
| `ReliableUdpSendWindow.ReliableUdpSendWindow.Reset` | Common/Net/Reliable/ReliableUdpSendWindow.h:64-68 | Forgets the pending packets and restarts at 1; keeps the configuration |
| `ReliableConversation.NoFalseAckInShortConversations` | Common/Net/Reliable/ReliableUdpSession.h:89-173 | Two sessions over a network that loses, delays, duplicates and reorders without limit: as long as each side has allocated fewer than 2^31 sequences, every packet acknowledged out of a send window was reported as new data by the peer, no ack was refused, and the numbers an ack window stands for are those of the data reported |
| `ReliableConversation.NoFalseAckIff` | Common/Net/Reliable/ReliableUdpSession.h:89-173 | For every conversation over that network, of any length and with no condition: it has been free of false acks, refused acks and false ack windows all along if and only if each of its deliveries was true. A delivery is true if its ack is not beyond the last number allocated, modulo 2^32; if the pending packets that it hits a full turn or more away from where it means them to be were reported anyway; and if its data is placed on its own number, or on a reported one and not reported anew |
| `ReliableConversation.DeliveryIsTruthfulIff` | Common/Net/Reliable/ReliableUdpSession.h:136-173 | One delivery from any sound state: truthful afterwards if and only if it is true |
| `ReliableConversation.NoFalseAck` | Common/Net/Reliable/ReliableUdpSession.h:89-173 | The same for conversations of any length in which each datagram is within the reach of 32 bits when it is delivered |
| `ReliableConversationFalseAck.FalseAckInARun` | Common/Net/Reliable/ReliableUdpSession.h:89-101 | A run with a false ack under the default configuration: one side spends 2^32 - 1 sequences and sends packet number 2^32, whose sequence is 0; the other, having received nothing, sends its first packet, whose ack 0 means nothing; and the first side counts its packet as acknowledged |
| `ReliableConversation.EveryTrueConversationIsSound` | Common/Net/Reliable/ReliableUdpSession.h:89-173 | Everything that links the two sides holds after any moves with true deliveries: windows show true histories, headers on the network acknowledge only what was reported, pending packets are on the network, acked packets were reported |
| `ReliableConversation.EveryAckRemovesExactlyWhatWasSeen` | Common/Net/Reliable/ReliableUdpSession.h:89-173 | In any conversation with true deliveries, whenever a datagram is delivered within the reach of 32 bits, it removes exactly the pending packets that its builder had received when it was built and that lie at most 32 behind the newest it had received |
| `ReliableConversation.NewDatagramsHaveSeenAll` | Common/Net/Reliable/ReliableUdpSession.h:89-101 | What any move puts on the network, data packet or ack, has seen all that its side has reported |
| `ReliableConversation.WhatWasReceivedIsDropped` | Common/Net/Reliable/ReliableUdpSession.h:89-173 | With fewer than 2^31 sequences on each side and no other condition: what a side puts on the network, delivered before anything else, leaves pending at the other exactly the packets that the side has not reported or that are more than 32 behind the newest it received |
| `ReliableConversation.DeliveredAtMostOnceInsideTheWindow` | Common/Net/Reliable/ReliableUdpSession.h:136-173 | In any conversation with true deliveries so far, whichever side a data packet from the network reaches: it is reported as new if and only if the number that its 32 bits stand for there was not reported before or has fallen more than 32 behind; within reach of 32 bits that number is the packet's own |
| `ReliableConversation.DeliveredAtMostOnceInShortConversations` | Common/Net/Reliable/ReliableUdpSession.h:136-173 | With fewer than 2^31 sequences allocated on each side, any data packet on the network is new if and only if it was not reported before or has fallen more than 32 behind: the exact extent of at-most-once delivery, with no condition on the network |
| `ReliableConversation.AckedIffHit` | Common/Net/Reliable/ReliableUdpProtocol.h:14-52 | An ack counts for a pending packet if and only if, modulo 2^32, the packet's number is the acknowledged one, or 1 to 32 behind it with its bit set |
| `ReliableConversation.ShortConversationsAreNear` | Common/Net/Reliable/ReliableUdpSession.h:89-173 | With fewer than 2^31 sequences allocated, every datagram ever sent is within the reach of 32 bits on arrival |
| `ReliableConversation.HonestAckIsNotRefused` | Common/Net/Reliable/ReliableUdpSendWindow.h:140-149 | An ack of an allocated number less than half the range back is accepted |
| `ReliableConversation.AckIsAcceptedIff` | Common/Net/Reliable/ReliableUdpSendWindow.h:140-149 | An ack is accepted if and only if its sequence is 0 or its number is not ahead of the last allocated one by less than half the range, modulo 2^32 |
| `ReliableConversation.AckIsTrueIff` | Common/Net/Reliable/ReliableUdpSendWindow.h:118-149 | An honest ack is accepted and removes only reported packets if and only if it is true |
| `ReliableConversation.NearConversationsAreTrue` | Common/Net/Reliable/ReliableUdpSession.h:89-173 | Whatever is within the reach of 32 bits on arrival is a true delivery |
| `ReliableConversation.SideRunsTheSession` | Common/Net/Reliable/ReliableUdpSession.h:103-196 | The conversation's steps are the session's own sends, receives and resends; the accounts only ride along, and every packet the session emits is put on the network |
| `ReliableConversation.ResendsAreOnTheNetwork` | Common/Net/Reliable/ReliableUdpSendWindow.h:151-179 | Every packet a resend pass hands out carries bytes that the network already holds |
| `ReliableUdpSession.DeliveredTwiceOutsideTheWindow` | Common/Net/Reliable/ReliableUdpSession.h:165-173 | Concrete run in which the same data is reported as new twice: sequences 1, 34, 1 |
| `ReliableUdpSession.HeaderAcknowledgesExactly` | Common/Net/Reliable/ReliableUdpSession.h:89-101 | A header acknowledges a number if and only if it was received and is at most 32 behind the newest: the piggybacked ack is the ack window |
| `ReliableUdpSession.SendingIsExact` | Common/Net/Reliable/ReliableUdpSession.h:103-129 | A game packet goes out if and only if it is a plain packet of a reliable type that fits and the window has room; on the wire it carries the game packet whole under the next sequence, and it is what the window then waits for |
| `ReliableUdpSession.DataIsAnswered` | Common/Net/Reliable/ReliableUdpSession.h:136-173 | Every data packet is answered, duplicates too, and the answer acknowledges it if and only if it is at most 32 behind the newest received before |
| `ReliableUdpSession.ReliableUdpSession.BuildOutgoingPacket` | Common/Net/Reliable/ReliableUdpSession.h:103-129 | Checks, then spends a sequence, piggybacks the ack window and registers: the outcome and both parts' new states; an unwrappable packet has already spent its sequence |
| `ReliableUdpSession.ReliableUdpSession.ProcessReceivedPacket` | Common/Net/Reliable/ReliableUdpSession.h:136-158 | An ack alone only touches the send window; data is observed and acked even when it is a duplicate |
| `ReliableUdpSession.ReliableUdpSession.ProcessReceivedDataHeader` | Common/Net/Reliable/ReliableUdpSession.h:165-173 | Says whether the data is new by the window before the observation; applies the piggybacked ack |
| `ReliableUdpSession.ReliableUdpSession.ProcessReceivedAck` | Common/Net/Reliable/ReliableUdpSession.h:160-163 | Applies an ack, or refuses one of a sequence never allocated |
| `ReliableUdpSession.ReliableUdpSession.ExtractResendResult` | Common/Net/Reliable/ReliableUdpSession.h:193-196 | Passes the send window's resend pass through and leaves the ack tracker alone |
| `ReliableUdpSession.ReliableUdpSession.Configure` | Common/Net/Reliable/ReliableUdpSession.h:70-75 | Sets the three limits and nothing else |
| `ReliableUdpSession.ReliableUdpSession.Reset` | Common/Net/Reliable/ReliableUdpSession.h:77-81 | Both parts as at the start, under the kept configuration |
| `ReliableUdpSessionRegistry.ClosingSessionsDrain` | Server/Net/ReliableUdpSessionRegistry.h:305-347 | A closing session for which nothing more is registered is gone after any events that include maxResendCount + 2 resend passes at least an interval apart, whatever acks and data arrive in between |
| `ReliableUdpSessionRegistry.ClosingStaysWithinSessions` | Server/Net/ReliableUdpSessionRegistry.h:117-347 | Every operation keeps the closing set within the session table |
| `ReliableUdpSessionRegistry.AcceptsExactlyAuthenticPackets` | Server/Net/ReliableUdpSessionRegistry.h:152-208 | The server accepts a datagram as a given packet under a given sequence if and only if it is, byte for byte, that packet authenticated under the session's token and sequence, and the replay guard finds the sequence new, or a repeat in a reliable packet |
| `ReliableUdpSessionRegistry.RefusalsAreExact` | Server/Net/ReliableUdpSessionRegistry.h:148-206 | A datagram is refused for its shape if it carries no packet, sequence and tag, for its tag if nobody authenticated it under the session's token, and as a replay if somebody did and the guard does not let it pass |
| `ReliableUdpSessionRegistry.ReplaysOfUnreliablePacketsAreRejected` | Server/Net/ReliableUdpSessionRegistry.h:152-208 | A packet accepted once and presented again at once is rejected as a replay if it is unreliable, and accepted again if it is reliable, whose duplicates the session must see |
| `ReliableUdpSessionRegistry.OrderDoesNotMatter` | Server/Net/ReliableUdpSessionRegistry.h:316-347 | Visiting the table in any order, each endpoint once, leaves the same registry |
| `ReliableUdpSessionRegistry.EveryResendBecomesATask` | Server/Net/ReliableUdpSessionRegistry.h:316-347 | In whatever order the sessions are visited, the tasks for an endpoint are exactly the packets its window hands out, in order and byte for byte, and none for others |
| `ReliableUdpSessionRegistry.PassCountsWhatItGivesUp` | Server/Net/ReliableUdpSessionRegistry.h:316-347 | Over all sessions a pass loses no packet: each is pending afterwards or counted as given up, even where the session was erased |
| `ReliableUdpSessionRegistry.SessionGoesIff` | Server/Net/ReliableUdpSessionRegistry.h:293-347 | A session goes if and only if it is removed, or it is closing and all that it still had pending is acknowledged or out of resends |
| `ReliableUdpSessionRegistry.OtherSessionsAreUntouched` | Server/Net/ReliableUdpSessionRegistry.h:117-314 | Whatever concerns one endpoint leaves the sessions and closing marks of all others alone |
| `ReliableUdpSessionRegistry.SessionsStartAfresh` | Server/Net/ReliableUdpSessionRegistry.h:117-140 | A session starts with nothing sent, received or seen, not closing, under its token and the configured limits |
| `ReliableUdpSessionRegistry.AnswersAreTheSessions` | Server/Net/ReliableUdpSessionRegistry.h:208-262 | What the registry answers to a packet or a send is what that endpoint's session answers, or that there is none |
| `ReliableUdpSessionRuns.SessionsRunAsIfAlone` | Server/Net/ReliableUdpSessionRegistry.h:117-347 | Whatever happened at other endpoints: since it was last opened a session is the product of its own packets, sends and resend passes, and its replay guard has seen exactly the authentic packets presented to it |
| `ReliableUdpSessionRuns.PacketsAreJudgedByTheSet` | Server/Net/ReliableUdpSessionRegistry.h:148-206 | After any run a datagram gets through if and only if it is that packet authenticated under the session's token, and among the numbers accepted since the session was opened its own is new, or a recent one in a reliable packet |
| `ReliableUdpSessionRegistry.ReliableUdpSessionRegistry.Upsert` | Server/Net/ReliableUdpSessionRegistry.h:117-138 | A fresh session and replay guard under the token, no longer closing |
| `ReliableUdpSessionRegistry.ReliableUdpSessionRegistry.AuthenticateIncomingPacket` | Server/Net/ReliableUdpSessionRegistry.h:152-208 | Status by status, and only the endpoint's replay guard changes |
| `ReliableUdpSessionRegistry.ReliableUdpSessionRegistry.ProcessReceivedPacket` | Server/Net/ReliableUdpSessionRegistry.h:210-259 | The session's own reception; a closing session that has drained is erased |
| `ReliableUdpSessionRegistry.ReliableUdpSessionRegistry.BuildOutgoingPacket` | Server/Net/ReliableUdpSessionRegistry.h:261-291 | The session's own sending, or no session |
| `ReliableUdpSessionRegistry.ReliableUdpSessionRegistry.BeginClose` | Server/Net/ReliableUdpSessionRegistry.h:305-314 | Marks an existing session as closing |
| `ReliableUdpSessionRegistry.ReliableUdpSessionRegistry.Remove` | Server/Net/ReliableUdpSessionRegistry.h:293-297 | Erases the session and its closing mark |
| `ReliableUdpSessionRegistry.ReliableUdpSessionRegistry.ExtractResendBatch` | Server/Net/ReliableUdpSessionRegistry.h:316-347 | The erase-while-iterating pass, in whatever order the hash table has: every session's resend pass, drained closing sessions erased, the packets and give-ups in visiting order |
| `SnapshotBroadcastBuilder.ReassemblyIsExact` | Server/Protocol/SnapshotBroadcastBuilder.cpp:31-121 | For chunks cut by the builder and then lost, duplicated, reordered and interleaved across ticks and rooms in any way: every list delivered is of a room and tick that were cut, and equals the server's full list if and only if that list made at most 65535 chunks |
| `SnapshotBroadcastBuilder.AllPacketsDeliverTheList` | Server/Protocol/SnapshotBroadcastBuilder.cpp:31-121 | When all of the builder's packets for a tick newer than the applied one arrive in a room, in any order, with repeats and uninterrupted, they deliver exactly the one full list if and only if it made at most 65535 chunks and no newer snapshot of the same count is being assembled; what the room holds of that tick and count has to be from those packets |
| `SnapshotBroadcastBuilder.AllPacketsDeliverTheListInRuns` | Server/Protocol/SnapshotBroadcastBuilder.cpp:31-121 | The same in every reachable state of an assembler that was fed the builder's packets, lost, repeated and interleaved in any way: nothing is asked of what the room holds |
| `SnapshotBroadcastBuilder.RunHoldsOnlyPackets` | Common/Net/Snapshot/SnapshotChunkAssemblerCore.h:151-320 | In every such state what a room holds of a tick and packet count came in that list's packets |
| `SnapshotBroadcastBuilder.OversizedListIsNotDelivered` | Server/Protocol/SnapshotBroadcastBuilder.cpp:44-53 | The packets of a list of more than 65535 chunks never deliver it: whatever they deliver is another list |
| `SnapshotBroadcastBuilder.OversizedListIsDeliveredCut` | Server/Protocol/SnapshotBroadcastBuilder.cpp:44-53 | Concrete input: of 65537 entries, one to a packet, the first packet alone is delivered as the whole snapshot |
| `SnapshotBroadcastBuilder.ChunksJoinToList` | Server/Protocol/SnapshotBroadcastBuilder.cpp:31-121 | Cutting a list into chunks loses and reorders nothing |
| `SnapshotBroadcastBuilder.ChunksFit` | Server/Protocol/SnapshotBroadcastBuilder.cpp:31-121 | No chunk exceeds a packet and only the last can be short |
| `SnapshotBroadcastBuilder.CountIsExact` | Server/Protocol/SnapshotBroadcastBuilder.cpp:44-45 | The chunk count computed from the length alone, 1 for an empty list, is the number of chunks cut |
| `SnapshotBroadcastBuilder.NumbersAreExactIffTheyFit` | Server/Protocol/SnapshotBroadcastBuilder.cpp:46-53 | The 16-bit index and count in every packet are the true ones if and only if there are at most 65535 chunks |
| `SnapshotBroadcastBuilder.BulletPacketsAreCut` | Server/Protocol/SnapshotBroadcastBuilder.cpp:31-74 | Every bullet packet made for a tick is cut from its own room's list |
| `SnapshotBroadcastBuilder.ImpactEffectPacketsAreCut` | Server/Protocol/SnapshotBroadcastBuilder.cpp:76-121 | Every effect packet made for a tick is cut from its own room's list |
| `SnapshotBroadcastBuilder.EveryRoomsBulletsAreSent` | Server/Protocol/SnapshotBroadcastBuilder.cpp:31-74 | A tick's tasks take to the peers of every room that has any all packets of the room's bullets, and nothing else |
| `SnapshotBroadcastBuilder.EveryRoomsEffectsAreSent` | Server/Protocol/SnapshotBroadcastBuilder.cpp:76-121 | The same for effects, in rooms that have any |
| `SnapshotBroadcastBuilder.NoPacketIsSentTwice` | Server/Protocol/SnapshotBroadcastBuilder.cpp:31-121 | There are exactly as many tasks as the lists of rooms with peers make chunks |
| `SnapshotBroadcastBuilder.BuildBulletSnapshotTasks` | Server/Protocol/SnapshotBroadcastBuilder.cpp:31-74 | The nested loops over rooms and chunks push exactly the packets of each room's list, in order, addressed to the room's peers |
| `SnapshotBroadcastBuilder.BuildImpactEffectTasks` | Server/Protocol/SnapshotBroadcastBuilder.cpp:76-121 | The same for effects, which make no packet when a room has none |
| `SnapshotBroadcastBuilder.FillPacket` | Server/Protocol/SnapshotBroadcastBuilder.cpp:48-67 | Copies one chunk entry by entry: the right slice under the right numbers |
| `SnapshotChunkAssembler.DeliveriesJoinPushedChunks` | Common/Net/Snapshot/SnapshotChunkAssemblerCore.h:151-342 | In any run, a delivery is the join, in index order, of chunks that were each pushed with the delivered room and tick and one common count: ticks, rooms and counts never mix |
| `SnapshotChunkAssembler.CompleteSnapshotIsDeliveredOnce` | Common/Net/Snapshot/SnapshotChunkAssemblerCore.h:151-320 | All chunks of a tick newer than the applied one, in any order with repeats and uninterrupted, lead to exactly one delivery from any assembly whatsoever: of these chunks, except where the room already held another chunk of the same tick and count, which stays; the one exception is an active assembly of a newer tick with the same count, which lets none through |
| `SnapshotChunkAssembler.EveryRunIsAssembling` | Common/Net/Snapshot/SnapshotChunkAssemblerCore.h:82-320 | In every reachable state each stored assembly counts its set flags and is incomplete |
| `SnapshotChunkAssembler.DeliveredTicksNeverDecrease` | Common/Net/Snapshot/SnapshotChunkAssemblerCore.h:151-320 | Between resets of a room the ticks delivered to it never decrease |
| `SnapshotChunkAssembler.DeliveredTicksIncrease` | Common/Net/Snapshot/SnapshotChunkAssemblerCore.h:151-320 | They strictly increase as long as no chunk of the applied tick changes the count of the active assembly |
| `SnapshotChunkAssembler.AheadIffNoStepBack` | Common/Net/Snapshot/SnapshotChunkAssemblerCore.h:206-232 | One chunk keeps the active assembly and any delivery newer than the applied tick if and only if it is not such a step back |
| `SnapshotChunkAssembler.AppliedTickCanBeDeliveredAgain` | Common/Net/Snapshot/SnapshotChunkAssemblerCore.h:206-232 | Concrete run that delivers tick 5 twice: strict increase is false of the code |
| `SnapshotChunkAssembler.AppliedTickIsDeliveredAgainIff` | Common/Net/Snapshot/SnapshotChunkAssemblerCore.h:206-232 | All chunks of the applied tick once more, uninterrupted, deliver it again, once, if and only if a snapshot is being assembled that is not of a newer tick with the same count |
| `SnapshotChunkAssembler.AheadIsDeliveredAgainIff` | Common/Net/Snapshot/SnapshotChunkAssemblerCore.h:206-232 | As long as the assembler is ahead of the applied tick, that is if and only if the chunk count differs from the active assembly's |
| `SnapshotChunkAssembler.CleanupDropsExactlyTheIdle` | Common/Net/Snapshot/SnapshotChunkAssemblerCore.h:107-139 | In every run a cleanup drops exactly the assemblies whose last own chunk (room, tick and count) came longer ago than the timeout, and nothing else |
| `SnapshotChunkAssembler.EveryAssemblyIsTimed` | Common/Net/Snapshot/SnapshotChunkAssemblerCore.h:151-320 | In every reachable state an assembly bears the time of its last own chunk and is not older than the applied tick |
| `SnapshotChunkAssembler.SnapshotChunkAssemblerCore.PushChunk` | Common/Net/Snapshot/SnapshotChunkAssemblerCore.h:151-320 | In-place update of both tables, and what is delivered, branch by branch |
| `SnapshotChunkAssembler.SnapshotChunkAssemblerCore.AcceptChunk` | Common/Net/Snapshot/SnapshotChunkAssemblerCore.h:268-320 | Stores a new chunk, and on the last one delivers and forgets the assembly |
| `SnapshotChunkAssembler.SnapshotChunkAssemblerCore.CleanupExpiredAssemblies` | Common/Net/Snapshot/SnapshotChunkAssemblerCore.h:107-139 | The erase loop removes exactly the assemblies idle for the timeout |
| `SnapshotChunkAssembler.SnapshotChunkAssemblerCore.FlattenChunkDataList` | Common/Net/Snapshot/SnapshotChunkAssemblerCore.h:324-342 | The append loop joins the chunks in index order |
| `SnapshotChunkAssembler.SnapshotChunkAssemblerCore.ResetRoom` | Common/Net/Snapshot/SnapshotChunkAssemblerCore.h:88-92 | Forgets one room's assembly and applied tick and nothing else |
| `SnapshotChunkAssembler.SnapshotChunkAssemblerCore.ClearAll` | Common/Net/Snapshot/SnapshotChunkAssemblerCore.h:82-86 | Forgets all assemblies and all applied ticks |
| `WorldCollision.PathIsClear` | Common/Game/WorldCollision.h:99-259 | For any wall list and any displacement, a player inside the bounds and clear of all walls is so at every point of its path, along X and then along Y |
| `WorldCollision.MoveEndsStanding` | Common/Game/WorldCollision.h:225-259 | and therefore also where it stops |
| `WorldCollision.PathAlongAxisIsClear` | Common/Game/WorldCollision.h:99-221 | Along one axis: stays within the bounds, moves no farther than asked and not backwards, and is clear of walls at every point passed |
| `WorldCollision.UpwardMoveStopsAtAWall` | Common/Game/WorldCollision.h:99-221 | A move that stops short stops touching a wall, and at every point farther on, up to the far side of that wall, the player would be in it |
| `WorldCollision.DownwardMoveStopsAtAWall` | Common/Game/WorldCollision.h:99-221 | The same in the other direction |
| `WorldCollision.TryMoveAlongXAxis` | Common/Game/WorldCollision.h:99-159 | The loop over walls that clamps the X coordinate computes the move along the axis |
| `WorldCollision.TryMoveAlongYAxis` | Common/Game/WorldCollision.h:161-221 | The same for Y |
| `WorldCollision.MovePlayerWithWallCollision` | Common/Game/WorldCollision.h:225-259 | X first, then Y from the new X |
| `WorldCollision.MoveIsWholeUnlessStopped` | Common/Game/WorldCollision.h:99-259 | A move goes its whole way unless it is stopped: along X by an edge or a wall across from the start, along Y by one across from where the move along X has led |
| `WorldCollision.CircleTouchesWallIff` | Common/Game/WorldCollision.h:274-320 | A bullet touches a wall if and only if some point of the wall lies within its radius |
| `WorldCollision.ImpactIsNearFirstContact` | Common/Game/WorldCollision.h:322-375 | Twelve bisections find a colliding point on the segment whose predecessor 1/4096 of the segment earlier is free, unless it is the very start |
| `WorldCollision.FindCircleImpactPosition` | Common/Game/WorldCollision.h:322-375 | The bisection loop computes that point |
| `RoomLayout.SpawnPointsStand` | Common/Game/RoomLayout.h:22-120 | Every spawn point of every room, the fallback included, is inside the world and clear of the room's walls |
| `RoomLayout.SpawnPointsComeInTurn` | Common/Game/RoomLayout.h:22-120 | Spawn points are taken in turn: two indices give the same point of a room's list if and only if they differ by a multiple of its length |
| `Arena.GameArenaKeepsStanding` | Server/Game/GameSimulation.cpp:14-40 | With the game's own rooms, moving, respawning and appearing keep players inside and clear of walls, for any directions of movement |
| `Arena.PlayersWalkTheirWay` | Server/Game/GameSimulation.cpp:14-40 | In a time a player walks its direction at its speed for that time, unless an edge or a wall stops it |
| `Arena.BulletTouchesPlayerIff` | Server/Game/GameSimulation.cpp:316-324 | A bullet touches a player if and only if its circle and the circle of the player's half extent have a point in common |
| `Arena.BulletTouchesSurroundingsIff` | Common/Game/WorldCollision.h:261-320 | A bullet touches its surroundings if and only if it reaches over the edge of the world or some point of a wall of its room lies within its radius |
| `Arena.BulletLeavesItsMarkAtContact` | Server/Game/GameSimulation.cpp:63-137 | The mark of a bullet that ended its move in its surroundings is at a touching point of the move, and 1/4096 of the way before it touched nothing, unless that is the start |
| `LocalPlayerReconciliation.ClientIsNeverCorrected` | Client/Game/LocalPlayerReconciliation.cpp:77-149 | Over any run of inputs and snapshots of a server that applies the same inputs, across sequence wrap-around and with at most 256 inputs unconfirmed at a time, reconciling never moves the player: what is rendered is always the replay of all inputs made |
| `LocalPlayerReconciliation.ReconcilingStaysInStep` | Client/Game/LocalPlayerReconciliation.cpp:85-149 | One snapshot of the first k inputs changes neither prediction nor offset and leaves exactly the later inputs pending |
| `LocalPlayerReconciliation.RecordingStaysInStepIff` | Client/Game/LocalPlayerReconciliation.cpp:55-75 | One more input keeps the client in step if and only if fewer than 256 are unconfirmed |
| `LocalPlayerReconciliation.OverflowSnapsToServer` | Client/Game/LocalPlayerReconciliation.cpp:55-149 | After an input too many the next snapshot is shown as it is, and the history starts afresh |
| `LocalPlayerReconciliation.DiscardsExactlyTheProcessed` | Client/Game/LocalPlayerReconciliation.cpp:77-83 | Discarding by wrapped sequence drops exactly the inputs up to the processed one |
| `LocalPlayerReconciliation.CorrectionIsInvisible` | Client/Game/LocalPlayerReconciliation.cpp:85-149 | Even when server and prediction differ, a correction within the snap distance and offset bound leaves the rendered position where it was |
| `LocalPlayerReconciliation.ReconcilingFollowsServer` | Client/Game/LocalPlayerReconciliation.cpp:85-149 | Against any server: what a snapshot leaves is, to within the ignored distance, where the server's position takes the player under the inputs it had not processed; a prediction that close is kept, any other replaced, shown at once from far away or on first sight, and otherwise smoothed from the old picture by an offset in the direction of the error, whole up to the bound |
| `LocalPlayerReconciliation.PausesAreIgnored` | Client/Game/LocalPlayerReconciliation.cpp:55-75 | An input that takes no time is neither recorded nor predicted, and nothing is predicted without a position or a speed |
| `LocalPlayerReconciliation.ClampedIsScaled` | Client/Game/LocalPlayerReconciliation.cpp:18-38 | A vector that is too long keeps its direction and gets the greatest length; a shorter one stays as it is |
| `LocalPlayerReconciliation.StepsKeepBounded` | Client/Game/LocalPlayerReconciliation.cpp:55-149 | The pending list never exceeds 256 inputs and the offset never exceeds 96 |
| `LocalPlayerReconciliation.ClampedIsShort` | Client/Game/LocalPlayerReconciliation.cpp:18-38 | A clamped vector is no longer than its bound |
| `LocalPlayerReconciliation.ReplayInTwoParts` | Client/Game/LocalPlayerReconciliation.cpp:85-149 | Replaying inputs in two parts is replaying them at once |
| `LocalPlayerReconciliation.ClientMovesAsServer` | Client/Game/LocalPlayerPrediction.cpp:23-40 | The client moves its player by the very rule by which the server moves it |
| `LocalPlayerReconciliation.LocalPlayerReconciliation.RecordPendingInput` | Client/Game/LocalPlayerReconciliation.cpp:55-75 | Appends; an input with no time is ignored, and overflow empties the list and invalidates the history |
| `LocalPlayerReconciliation.LocalPlayerReconciliation.DiscardProcessedInputs` | Client/Game/LocalPlayerReconciliation.cpp:77-83 | Pops from the front while not newer than the processed sequence |
| `LocalPlayerReconciliation.LocalPlayerReconciliation.Reconcile` | Client/Game/LocalPlayerReconciliation.cpp:85-149 | Snap, ignore or correct: the new pending list, offset, validity and prediction, in place |
| `LocalPlayerReconciliation.LocalPlayerPrediction.ApplyInput` | Client/Game/LocalPlayerPrediction.cpp:23-40 | Moves an initialized prediction in place by one input; leaves an uninitialized one alone |
| `RemotePlayerInterpolationBuffer.PruningChangesNothingLater` | Client/Game/RemotePlayerInterpolationBuffer.cpp:57-106 | Pruning at m leaves the interpolated position unchanged for every time at or after m |
| `RemotePlayerInterpolationBuffer.DroppingFirstChangesNothingLater` | Client/Game/RemotePlayerInterpolationBuffer.cpp:26-55 | Dropping the oldest sample on overflow changes nothing from the second sample's time on |
| `RemotePlayerInterpolationBuffer.InterpolationHitsSamples` | Client/Game/RemotePlayerInterpolationBuffer.cpp:65-106 | The interpolation passes through every sample |
| `RemotePlayerInterpolationBuffer.InterpolationStaysBetween` | Client/Game/RemotePlayerInterpolationBuffer.cpp:65-106 | Between two neighbours it stays between their positions on each axis |
| `RemotePlayerInterpolationBuffer.InterpolationIsLinear` | Client/Game/RemotePlayerInterpolationBuffer.cpp:65-106 | and divides the way between them as the time divides the time between them |
| `RemotePlayerInterpolationBuffer.PushedIsShown` | Client/Game/RemotePlayerInterpolationBuffer.cpp:26-55 | A sample not older than the newest is shown from its time on; an older one is ignored |
| `RemotePlayerInterpolationBuffer.PushingChangesNothingEarlier` | Client/Game/RemotePlayerInterpolationBuffer.cpp:26-55 | A newer sample changes no position up to the newest one's time, except before the second one's if the oldest had to go |
| `RemotePlayerInterpolationBuffer.PruningDropsAllItCan` | Client/Game/RemotePlayerInterpolationBuffer.cpp:57-63 | Pruning at m drops from the front only, leaves a sample if there was one, and at most one at or before m |
| `RemotePlayerInterpolationBuffer.PushKeepsRising` | Client/Game/RemotePlayerInterpolationBuffer.cpp:26-55 | Pushing keeps sample times strictly rising and at most 32 samples |
| `RemotePlayerInterpolationBuffer.RemotePlayerInterpolationBuffer.PushSample` | Client/Game/RemotePlayerInterpolationBuffer.cpp:26-55 | Old times are dropped, the newest time is replaced, a newer one is appended and the oldest evicted past the limit |
| `RemotePlayerInterpolationBuffer.RemotePlayerInterpolationBuffer.PruneBefore` | Client/Game/RemotePlayerInterpolationBuffer.cpp:57-63 | The pop loop, with all later interpolations unchanged |
| `RemotePlayerInterpolationBuffer.RemotePlayerInterpolationBuffer.Interpolate` | Client/Game/RemotePlayerInterpolationBuffer.cpp:65-106 | The search loop finds the neighbours and interpolates; none for an empty buffer |
| `RemotePlayerInterpolationBuffer.RemotePlayerInterpolationBuffer.GetLatestPosition` | Client/Game/RemotePlayerInterpolationBuffer.cpp:107-118 | The newest sample's position, or none |
| `RemotePlayerInterpolationBuffer.RemotePlayerInterpolationBuffer.Reset` | Client/Game/RemotePlayerInterpolationBuffer.cpp:14-24 | Exactly one sample is left |
| `StatePool.SwapRemovalTakesOne` | Server/Game/StatePool.h:42-55 | Swap-with-last removal takes exactly the one state out of the multiset and moves nothing before it |
| `StatePool.WithoutRoomIsExact` | Server/Game/GameWorld.cpp:116-141 | Scanning once while slots are refilled from the end still removes every state of the room and no other |
| `StatePool.StatePool.RemoveAt` | Server/Game/StatePool.h:42-55 | In place; an index past the end is ignored |
| `StatePool.StatePool.RemoveRoom` | Server/Game/GameWorld.cpp:116-141 | The loop that looks at a refilled index again |
| `GameWorld.TransientsOfOthersStay` | Server/Game/GameWorld.cpp:116-141 | Clearing a room keeps every bullet and effect of another room as often as it was there, and none of its own |
| `GameWorld.GameWorld.ClearRoomTransientState` | Server/Game/GameWorld.cpp:116-141 | Both pools in place, nothing else in the world |
| `GameSimulation.EveryBulletAdvancesOnce` | Server/Game/GameSimulation.cpp:42-223 | Despite removal by swapping, one pass advances each bullet present at its start exactly once |
| `GameSimulation.BulletPassIsAccountedFor` | Server/Game/GameSimulation.cpp:42-223 | For every player the rise in deaths is the number of kill events naming it as victim and the rise in kills the number naming it as killer; nobody dies twice in a pass, the dead stay dead, and dead means out of hit points throughout |
| `GameSimulation.BulletPassKeepsOwners` | Server/Game/GameSimulation.cpp:42-223 | Bullets keep their rooms and owners, effects appear only in rooms of bullets, and every kill is by an owner of a bullet of its room on a player of that room |
| `GameSimulationAccounts.PassLeavesPlayer` | Server/Game/GameSimulation.cpp:42-223 | In closed form, for every player: over the bullet pass its hit points fall by exactly the damage of the bullets that struck it, down to 0; a player nothing struck keeps them; a living one dies if and only if the damage reaches its hit points; nothing strikes the dead or the invincible; and all else it is left with, flash, timer, input and counts |
| `GameSimulationAccounts.EveryBulletHasItsTurn` | Server/Game/GameSimulation.cpp:50-172 | Each bullet of the pass has exactly one turn, and it expires, strikes the surroundings, strikes the first living, vulnerable player of its room other than its owner that it touches, or flies on, by just what it meets there |
| `GameSimulationAccounts.PassLeavesItsTurns` | Server/Game/GameSimulation.cpp:50-223 | What the pass leaves: as a multiset the moved bullets that fly on, one effect for each strike, in order and place, and one kill event for each player struck down, in the name of the bullet's owner |
| `GameSimulationAccounts.BulletsFlyStraightAndExpire` | Server/Game/GameSimulation.cpp:50-61 | After any number of passes every bullet left is one of the first, as far along its straight line as the time that has passed, and that time is less than the life it had |
| `GameSimulation.MovesKeepStanding` | Server/Game/GameSimulation.cpp:14-40 | After any number of players moved, all stand inside and clear of walls, and nothing but positions changed |
| `GameSimulation.MovesAreIndependent` | Server/Game/GameSimulation.cpp:14-40 | Whatever the order of the list, each listed living player has made exactly its own move and every other player is unchanged |
| `GameSimulation.RespawnsKeep` | Server/Game/GameSimulation.cpp:225-303 | Respawning keeps the same players, standing, with dead meaning out of hit points |
| `GameSimulation.RespawnsAreIndependent` | Server/Game/GameSimulation.cpp:225-303 | Whatever the order of the hash table, each player has had exactly its own respawn turn and every other player is unchanged |
| `GameSimulationAccounts.RespawnPassLeavesPlayer` | Server/Game/GameSimulation.cpp:225-303 | For every player, whatever the order: a living one is untouched, a dead one waits until its time is up and it is listed, and then is back at its room's first spawn point, whole and for a while invincible, with its counts |
| `GameSimulationAccounts.RespawnPassShowsSpawns` | Server/Game/GameSimulation.cpp:231-303 | The pass adds exactly one effect for each player that comes back, where it comes back, and touches no bullet |
| `GameSimulationAccounts.TimersRunDown` | Server/Game/GameSimulation.cpp:264-338 | After any number of passes every running timer has lost the time passed, down to zero, and a stopped one is as it was |
| `GameSimulationLoops.UpdatePlayers` | Server/Game/GameSimulation.cpp:14-40 | The loop moves each listed living player once, in place |
| `GameSimulationLoops.UpdateBullets` | Server/Game/GameSimulation.cpp:42-223 | The loop with the conditional index computes the bullet pass; terminates by pool size minus index |
| `GameSimulationLoops.AdvanceBullet` | Server/Game/GameSimulation.cpp:50-220 | One bullet's turn: moves in place, expires, hits a player or its surroundings, and is swapped out if spent |
| `GameSimulationLoops.FindHit` | Server/Game/GameSimulation.cpp:141-172 | The first listed living player of the room, other than the owner, that the bullet touches |
| `GameSimulationLoops.Hit` | Server/Game/GameSimulation.cpp:174-206 | Damage, death, timer, and the credited kill event, in place |
| `GameSimulationLoops.StrikeSurroundings` | Server/Game/GameSimulation.cpp:63-137 | Leaves an effect at the found impact point |
| `GameSimulationLoops.UpdateRespawns` | Server/Game/GameSimulation.cpp:225-262 | The loop over the player table in whatever order it has |
| `GameSimulationLoops.UpdateRespawn` | Server/Game/GameSimulation.cpp:231-303 | A dead player's timer runs, and at zero it respawns if its context is known |
| `GameSimulationLoops.UpdatePlayerTimers` | Server/Game/GameSimulation.cpp:264-272 | Every timer runs down to zero |
| `MatchHistoryTracker.RecordKeeps` | Server/Game/MatchHistoryTracker.cpp:91-122 | Recording a kill keeps kills equal to deaths in every match |
| `MatchHistoryTracker.EnterKeeps` | Server/Game/MatchHistoryTracker.cpp:28-58 | Entering keeps it, and files stats under positive ids |
| `MatchHistoryTracker.LeaveKeeps` | Server/Game/MatchHistoryTracker.cpp:60-89 | Leaving keeps it, also in the match that completes with its last player |
| `MatchHistoryTracker.CompletionKeeps` | Server/Game/MatchHistoryTracker.cpp:139-149 | Completing all matches keeps it in the completed lists |
| `MatchHistoryTracker.AllAreRecorded` | Server/Game/MatchHistoryTracker.cpp:124-137 | If each kill of a list can be recorded to begin with, all of them are |
| `MatchHistoryTracker.RecordedCounts` | Server/Game/MatchHistoryTracker.cpp:91-122 | A recorded kill is one kill more for its killer and one death more for its victim in its room's match, and changes no other count; a refused one changes none |
| `MatchHistoryTracker.RecordingCounts` | Server/Game/MatchHistoryTracker.cpp:91-137 | Over any list of kills every player's kills and deaths rise by exactly the recordable ones that name it as killer and as victim in its room |
| `MatchHistoryTracker.EnteringStartsMatch` | Server/Game/MatchHistoryTracker.cpp:28-58 | A room's match starts with its first player, and later ones leave its start and all stats alone |
| `MatchHistoryTracker.EnteringAndLeavingAlternate` | Server/Game/MatchHistoryTracker.cpp:28-89 | A player may leave a room's match if and only if it may not enter it, and entering and leaving turn the one into the other |
| `MatchHistoryTracker.LeavingCompletesMatch` | Server/Game/MatchHistoryTracker.cpp:60-89 | The last player to leave completes the match, once, with its room, start, end and all stats in order; any other leaves completed matches alone |
| `MatchHistoryTracker.CompletionsAreTheMatches` | Server/Game/MatchHistoryTracker.cpp:139-149 | Completing all makes of each match one record, with its room, start, end and all stats in order |
| `MatchHistoryTracker.SortedListingIsUnique` | Server/Game/MatchHistoryTracker.cpp:8-26 | The stats list of a completed match is the one strictly sorted listing of its table, whatever sorting produced it |
| `MatchHistoryTracker.BuildCompletedMatch` | Server/Game/MatchHistoryTracker.cpp:8-26 | Sorting the table's entries yields that list |
| `MatchHistoryTracker.MatchHistoryTracker.EnterPlayer` | Server/Game/MatchHistoryTracker.cpp:28-58 | Refused for an invalid room or player or one already active; opens the match and the stats entry when missing |
| `MatchHistoryTracker.MatchHistoryTracker.LeavePlayer` | Server/Game/MatchHistoryTracker.cpp:60-89 | Refused unless active in the room; the last one to leave completes the match |
| `MatchHistoryTracker.MatchHistoryTracker.RecordKill` | Server/Game/MatchHistoryTracker.cpp:91-122 | Refused without a match or without stats for both; otherwise one kill and one death more |
| `MatchHistoryTracker.MatchHistoryTracker.RecordKills` | Server/Game/MatchHistoryTracker.cpp:124-137 | One after the other, counting those taken |
| `MatchHistoryTracker.MatchHistoryTracker.CompleteAll` | Server/Game/MatchHistoryTracker.cpp:139-149 | Every active match is completed, in whatever order the table has |
| `MatchHistoryTracker.MatchHistoryTracker.ExtractCompletedMatches` | Server/Game/MatchHistoryTracker.cpp:151-156 | Hands out all completed matches and keeps none |
| `PeerRoomManager.UpsertKeepsAgreement` | Server/Service/PeerRoomManager.cpp:204-220 | A new peer joins its room: every peer stays under its own key and in exactly its room's members, and no room is empty |
| `PeerRoomManager.RebindKeepsAgreement` | Server/Service/PeerRoomManager.cpp:260-333 | The same after a recoverable peer moved to another endpoint |
| `PeerRoomManager.RemoveKeepsAgreement` | Server/Service/PeerRoomManager.cpp:335-366 | The same after a removal, and nobody else is gone |
| `PeerRoomManager.RoomChangeKeepsAgreement` | Server/Service/PeerRoomManager.cpp:368-401 | The same after a change of rooms |
| `PeerRoomManager.MarkingKeepsAgreement` | Server/Service/PeerRoomManager.cpp:403-436 | The same after timed-out peers were marked |
| `PeerRoomManager.RemovalsKeepAgreement` | Server/Service/PeerRoomManager.cpp:438-478 | The same after any list of expired peers was removed, and exactly they are gone |
| `PeerRoomManager.RoomIsEmptyIff` | Server/Service/PeerRoomManager.h:124-128 | A room counts no members if and only if no peer is in it |
| `PeerRoomManager.MarkingIsExact` | Server/Service/PeerRoomManager.cpp:403-436 | Marking makes recoverable, as of now, exactly the connected peers silent for more than the timeout, and touches no other |
| `PeerRoomManager.ExpiryIsExact` | Server/Service/PeerRoomManager.cpp:438-478 | The peers gone after expiry are exactly those recoverable for longer than the grace period, and no other is touched |
| `PeerRoomManager.PeerRoomManager.FindJoinedPeerByPlayerId` | Server/Service/PeerRoomManager.cpp:124-135 | A joined peer with this player, or none if there is none |
| `PeerRoomManager.PeerRoomManager.FindJoinedPeerByAccountId` | Server/Service/PeerRoomManager.cpp:88-109 | A joined peer with this account, or none if there is none or the account is not positive |
| `PeerRoomManager.PeerRoomManager.FindRecoverablePeerBySessionToken` | Server/Service/PeerRoomManager.cpp:165-191 | A recoverable joined peer with this token, or none if there is none or the token is invalid |
| `PeerRoomManager.PeerRoomManager.UpsertJoinedPeer` | Server/Service/PeerRoomManager.cpp:204-220 | Both tables in place |
| `PeerRoomManager.PeerRoomManager.RefreshRecvTime` | Server/Service/PeerRoomManager.cpp:248-258 | Only a joined peer's time changes |
| `PeerRoomManager.PeerRoomManager.RebindRecoverablePeer` | Server/Service/PeerRoomManager.cpp:260-333 | Decides exactly when rebinding is possible, and otherwise changes nothing |
| `PeerRoomManager.PeerRoomManager.RemovePeer` | Server/Service/PeerRoomManager.cpp:335-366 | Removes a joined peer from both tables, drops an emptied room, and hands the peer out |
| `PeerRoomManager.PeerRoomManager.ChangePeerRoom` | Server/Service/PeerRoomManager.cpp:368-401 | Moves a joined peer to another room, or changes nothing |
| `PeerRoomManager.PeerRoomManager.MarkTimedOutPeersRecoverable` | Server/Service/PeerRoomManager.cpp:403-436 | Marks and lists exactly the connected peers silent for the timeout |
| `PeerRoomManager.PeerRoomManager.RemoveExpiredRecoverablePeers` | Server/Service/PeerRoomManager.cpp:438-478 | The erase-while-iterating loop removes and lists exactly the recoverable peers past the grace period, in table order |
| `PeerRoomManager.PeerRoomManager.CommitProcessedInputSequences` | Server/Net/UdpServer.cpp:637-645 | Every joined peer's accepted input becomes processed |
| `AuthenticatedAccountRegistry.AuthenticatedAccountRegistry.Upsert` | Server/Service/AuthenticatedAccountRegistry.cpp:9-28 | Registers a complete account under its endpoint, or refuses and changes nothing |
| `AuthenticatedAccountRegistry.AuthenticatedAccountRegistry.Find` | Server/Service/AuthenticatedAccountRegistry.cpp:63-72 | The endpoint's account, only under its token |
| `AuthenticatedAccountRegistry.AuthenticatedAccountRegistry.FindEndpointByAccountId` | Server/Service/AuthenticatedAccountRegistry.cpp:74-90 | An endpoint that holds the account, or none if there is none |
| `AuthenticatedAccountRegistry.AuthenticatedAccountRegistry.Remove` | Server/Service/AuthenticatedAccountRegistry.cpp:92-95 | Removes exactly this endpoint |
| `AuthenticatedAccountRegistry.AuthenticatedAccountRegistry.RemoveExpired` | Server/Service/AuthenticatedAccountRegistry.cpp:97-121 | Removes exactly the accounts that waited for the timeout, and counts them |
| `AccountLoginAdmissionService.AdmissionKeepsOneOwner` | Server/Service/AccountLoginAdmissionService.cpp:19-106 | Whatever a login is answered, no account is held by two peers, by two waiting logins, or by one of each |
| `AccountLoginAdmissionService.AdmittedIsSoleOwner` | Server/Service/AccountLoginAdmissionService.cpp:19-106 | A token is handed out exactly to admitted logins; a newly authenticated account waits at the endpoint and no peer holds it, an existing session's account is that endpoint's peer and waits nowhere |
| `AccountLoginAdmissionService.LoginIsAnsweredExactly` | Server/Service/AccountLoginAdmissionService.cpp:19-106 | Exactly who is let in: a complete login with a valid token drawn, to an account that no peer and no login waiting elsewhere holds, from an endpoint without a peer that waits for no other account; and a peer logging in again to its own account; with the token and the registry in each case |
| `AccountLoginAdmissionService.PeersHaveDistinctIds` | Server/Service/AccountLoginAdmissionService.cpp:19-106 | Persistent player ids being one-to-one with accounts, distinct peers have distinct ids |
| `PeerServices.ApplyLogin` | Server/Service/AccountLoginAdmissionService.cpp:10-112 | The chain of guards, in order, on the registry in place |
| `PeerServices.JoinAuthenticatedPeer` | Server/Service/PeerSessionService.cpp:14-131 | Existing, recoverable, waiting or unknown: the status, the result, and peers, rooms, world and accounts in place |
| `PeerServices.JoinPeer` | Server/Service/PeerSessionService.cpp:133-191 | An existing peer under its own identity is refreshed, another's is rejected, and a new one is created with its player |
| `PeerServices.LeavePeer` | Server/Service/PeerSessionService.cpp:193-224 | Peer, player and, with the last member, the room's bullets and effects go |
| `PeerServices.ChangePeerRoom` | Server/Service/PeerSessionService.cpp:226-291 | Peer and player move to the next room's spawn point; an emptied room is cleared |
| `PeerServices.MarkTimedOutPeersRecoverable` | Server/Service/PeerSessionService.cpp:293-308 | Timed-out peers are marked and their players' input stops |
| `PeerServices.RemoveExpiredRecoverablePeers` | Server/Service/PeerSessionService.cpp:310-324 | Expired peers and their players go, and emptied rooms are cleared |
| `PeerServices.ApplyInputCommand` | Server/Service/PlayerCommandService.cpp:28-56 | Only a living joined player's newer input is taken |
| `PeerServices.FireBullet` | Server/Service/PlayerCommandService.cpp:58-97 | Only a living joined player off cooldown fires, in its own room and name; a request during cooldown still refreshes the peer |
| `UdpServerRuns.EveryRunIsSound` | Server/Net/UdpServer.cpp:349-1746 | Over any interleaving of login, join, recovery, leave, kick, room change, input, fire, keep-alive, tick, timeout, resend, authenticate, receive, broadcast and stop in which no join finds its 32-bit player id in use: peers, rooms, players, accounts, sessions, matches, bullets and effects agree in every reachable state |
| `UdpServerPlayerIds.FewJoinsMakeARun` | Server/Game/GameWorld.cpp:19-22 | With fewer than 2^32 joins no join finds its player id in use, whatever else happens: all results about runs apply |
| `UdpServerRuns.StepKeepsIff` | Server/Net/UdpServer.cpp:349-1746 | A step from a sound state leads to a sound state if and only if it is no join that finds the next player id in use and no stop of a server with peers that is taken for not running |
| `UdpServerRuns.EveryKillIsRecorded` | Server/Net/UdpServer.cpp:597-619 | In every run each tick's kill events are all taken by the match history, and in every match, active or completed, total kills equal total deaths |
| `UdpServerRuns.MatchHistoryNeverRefuses` | Server/Net/UdpServer.cpp:1202-1229 | In every run the logged failures to enter or leave a match history cannot happen: not for a join, leave, kick, room change or any expiring peer |
| `UdpServerTimeouts.TimeoutsAreExact` | Server/Net/UdpServer.cpp:1668-1692 | In every run a timeout step keeps, untouched and with its session, exactly the connected peers last heard from at most the timeout ago, by join, input, shot, keep-alive or room change; those silent for longer lose their session, are recoverable as of now and stop; and of the recoverable exactly those go, with their players, that were lost longer ago than the grace period |
| `UdpServerTimeouts.EveryPeerIsTimed` | Server/Service/PeerRoomManager.cpp:204-478 | In every reachable state the table says of each peer when it was last heard from, whether a timeout step has lost it since it joined, and when |
| `UdpServerTimeouts.WaitingLoginsExpireExactly` | Server/Service/AuthenticatedAccountRegistry.cpp:97-121 | In every run a timeout step forgets exactly the waiting logins admitted at least the timeout ago, and none if the timeout is not positive |
| `UdpServerTicks.TicksAreExact` | Server/Net/UdpServer.cpp:597-645 | In every run a tick takes each peer's player through walking, hits, coming back and timers, to the outcome told by the damage that struck it; its accepted input counts as processed, and the tick is counted modulo 2^32 |
| `UdpServerTicks.TickOfAPlayer` | Server/Game/GameSimulation.cpp:14-312 | Stage by stage, from any sound state: the player walks if it lives, takes the hits of the bullets at their turns among the players after they walked, comes back if dead and due, and its timers run |
| `UdpServerTicks.TicksRaiseStatsExactly` | Server/Net/UdpServer.cpp:597-619 | In every run a tick raises the stats of every player of every active match by exactly its kills and deaths among the tick's kill events of that match's room |
| `UdpServerTicks.DeathsShownAreDeathsKept` | Server/Net/UdpServer.cpp:597-619 | In every run a tick raises the death count that a peer's player shows and the one that its match keeps by the same number |
| `UdpServerTicks.AcceptedInputMovesAsPredicted` | Client/Game/LocalPlayerPrediction.cpp:23-40 | In every run, an accepted input and the tick after it put a player that survives the tick exactly where the client's prediction puts it, and report that input's sequence as processed |
| `UdpServerMatchTimes.CompletedMatchesAreTrue` | Server/Game/MatchHistoryTracker.cpp:60-149 | In every run each record that a step adds is of a room whose match ended in that step, from when that match was opened until then, listing all of its stats; and every match that ends leaves exactly one |
| `UdpServerMatchTimes.EveryMatchIsTimed` | Server/Game/MatchHistoryTracker.cpp:28-58 | In every reachable state an active match bears the time of the event that opened it |
| `UdpServerRuns.ActivePlayersAreTheRoomsPeers` | Server/Game/MatchHistoryTracker.cpp:28-89 | In every reachable state a room has a match exactly while it has peers, and the match's active players are exactly their persistent ids |
| `UdpServerRuns.SessionsAreThoseOfConnectedPeers` | Server/Net/ReliableUdpSessionRegistry.h:117-347 | In every reachable state the sessions not closing are exactly those of connected peers, under the same tokens, and only sessions are closing |
| `UdpServerSessions.SessionsFollowTheirEvents` | Server/Net/UdpServer.cpp:349-1746 | In every run the server holds for an endpoint exactly what a registry would that had seen that endpoint's own openings, packets, answers, closings and timeouts and the resend passes, and nothing else |
| `UdpServerSessions.EveryRunsSessions` | Server/Net/UdpServer.cpp:349-1746 | In every run, since it was last opened, under the configured limits, a session is the product of the packets received at its endpoint, the packets sent there and all resend passes |
| `UdpServerSessions.EveryRunAuthenticatesExactly` | Server/Net/UdpServer.cpp:349-1746 | In every run a datagram gets through if and only if it is that packet authenticated under the token its endpoint's session was last opened with, and its sequence is new among those accepted since, or a recent one in a reliable packet |
| `UdpServerRuns.NoAccountHasTwoOwners` | Server/Service/AccountLoginAdmissionService.cpp:19-106 | In every reachable state peers have distinct accounts, waiting logins have distinct accounts, and no account is both |
| `UdpServerRuns.BulletsBelongToLiveRooms` | Server/Service/PeerSessionService.cpp:193-324 | In every reachable state each bullet and effect belongs to a room with members, and the bullet's owner has stats in that room's match |
| `UdpServerRuns.PeersRoomsAndPlayersAgree` | Server/Service/PeerRoomManager.cpp:204-478 | In every reachable state each peer sits under its own endpoint, the rooms are exactly those of peers with exactly those peers as members and never empty, and the players of the world are exactly those of peers, one each |
| `UdpServerTransients.TransientsGoExactlyWithTheirRooms` | Server/Service/PeerSessionService.cpp:193-324 | In every run a step other than a tick, a shot, a broadcast or a stop keeps every bullet and effect as often as it was there if its room still has peers, and none of the others |
| `UdpServerTransients.StepLosesOnlyEmptied` | Server/Service/PeerSessionService.cpp:193-324 | One such step from any sound state keeps each bullet and effect as often as it was there, or removes it from a room without members |
| `UdpServerRuns.PlayersStandInTheirRooms` | Server/Game/GameSimulation.cpp:14-40 | In every reachable state of a server with the game's rooms, every peer's player is there, inside the world and clear of the walls of its room |
| `UdpServerRuns.StepKeeps` | Server/Net/UdpServer.cpp:349-1746 | Any one enabled step keeps all tables in agreement |
| `UdpServerRuns.StopKeepsIff` | Server/Net/UdpServer.cpp:365-377 | Stopping keeps agreement if and only if the server was running or had no peers |
| `UdpServerRuns.TickRecordsEveryKill` | Server/Net/UdpServer.cpp:597-619 | A tick from any sound state has all its kills recorded |
| `UdpServerRequests.JoinKeeps` | Server/Net/UdpServer.cpp:1202-1229 | Every outcome of a join keeps agreement as long as a fresh player's id is free |
| `UdpServerRequests.JoinKeepsIff` | Server/Service/PeerSessionService.cpp:168-184 | and only then: under an id in use two peers share a player |
| `UdpServerIdInUse.JoinFindsIdInUseInARun` | Server/Game/GameWorld.cpp:19-22 | A run in which it happens: one player stays while others come and go until the ids have gone round, and the next to join is given its id |
| `UdpServerRequests.JoinEntersMatch` | Server/Net/UdpServer.cpp:1202-1229 | A fresh peer's match entry succeeds whatever its player id |
| `UdpServerRequests.JoinIsDecidedByTokens` | Server/Service/PeerSessionService.cpp:14-131 | In a sound state the outcome of a join depends only on who holds the presented token: exact conditions for rejected, existing, recovered and joined |
| `UdpServerAnswers.JoinIsAnsweredTruly` | Server/Service/PeerSessionService.cpp:14-184 | Whoever is let in is told the truth about its player, and others are told exactly of new ones; what each outcome makes of peers, players and accounts: a new peer under the waiting account at the spawn point after those of the peers in the room, a lost peer under its new endpoint with its player untouched, or a peer only heard from |
| `UdpServerAnswers.MissingPlayerIsReplaced` | Server/Service/PeerSessionService.cpp:133-184 | A peer whose player is missing, joining again under its own identity, is given a new player as a new peer would be, and the others are told |
| `UdpServerAnswers.RoomChangeIsExact` | Server/Service/PeerSessionService.cpp:226-291 | Whoever changes rooms is at the spawn point after those of the peers in the next room, halted, and nobody else is touched |
| `UdpServerAnswers.RoomChangeIsTakenIff` | Server/Service/PeerSessionService.cpp:226-291 | A request to change rooms is taken if and only if it is a living player's, for a positive room other than its own; otherwise nothing changes |
| `UdpServerAnswers.LeavingIsAnswered` | Server/Net/UdpServer.cpp:1334-1356 | A leaving peer's answer goes out and its session closes behind it if and only if it can be sent; otherwise the session is removed; no other session is touched |
| `UdpServerRequests.RecoverySucceeds` | Server/Service/PeerSessionService.cpp:18-83 | In a sound state a recoverable peer can always be moved to a free endpoint: the failure branch is unreachable |
| `UdpServerRequests.FireIsBacked` | Server/Service/PlayerCommandService.cpp:58-97 | A fired bullet belongs to a peer of its room, who has stats in the room's match |
| `PlayerCommandService.ShotIsTheShooters` | Server/Game/BulletFactory.h:14-50 | A shot adds exactly one bullet, in the shooter's name and room, from where it stands, the way it last went, as fast, long and hard as the weapon says, and starts its cooldown |
| `PlayerCommandService.ShotFliesWhereLastWent` | Server/Service/PlayerCommandService.cpp:13-56 | That way is the direction of the last accepted input, or the one before if it had none |
| `PlayerCommandService.ShotsWaitForTheCooldown` | Server/Service/PlayerCommandService.cpp:76-96 | After a shot the player may shoot again if and only if as much time has passed in ticks as the weapon's cooldown |
| `PlayerCommandService.RequestsAreTakenIff` | Server/Service/PlayerCommandService.cpp:28-97 | In a sound lobby exactly the living players of peers act: with an input if newer, with a shot if cooled down; the dead do nothing |
| `UdpServerRequests.LoginKeeps` | Server/Service/AccountLoginAdmissionService.cpp:10-112 | A login keeps all tables in agreement |
| `UdpServerDepartures.DepartureKeeps` | Server/Net/UdpServer.cpp:1334-1356 | A leaving or kicked peer keeps agreement and leaves its match without fail, and its session closes or goes |
| `UdpServerDepartures.TimeoutsKeep` | Server/Net/UdpServer.cpp:1668-1692 | Marking, expiring and forgetting keep agreement; each expired peer in its turn leaves its match without fail |
| `UdpServerDepartures.ChangeRoomKeeps` | Server/Net/UdpServer.cpp:1401-1430 | Changing rooms keeps agreement; leaving one match and entering the other both succeed |
| `UdpServerDepartures.LeftAllAgrees` | Server/Net/UdpServer.cpp:1668-1711 | Leaving matches one by one, for any list of peers, ends with the matches of those that remain |
| `UdpServerInvariants.LeavingAgrees` | Server/Game/MatchHistoryTracker.cpp:60-89 | A peer's leaving never fails, and its match completes exactly with the last peer of the room |
| `UdpServerInvariants.EnteringAgrees` | Server/Game/MatchHistoryTracker.cpp:28-58 | A new peer's entering never fails |
| `UdpServer.UdpServer.ProcessJoinRequest` | Server/Net/UdpServer.cpp:1202-1229 | The locked section's outcome and whole new state; match entry is never refused; the tables agree afterwards, and it was one join step, if and only if a fresh player found its id free |
| `UdpServer.UdpServer.ProcessLeaveRequest` | Server/Net/UdpServer.cpp:1334-1356 | One leave step; leaving the match is never refused |
| `UdpServer.UdpServer.ProcessJoinRoomRequest` | Server/Net/UdpServer.cpp:1401-1430 | One room-change step; neither match refuses |
| `UdpServer.UdpServer.KickPlayer` | Server/Net/UdpServer.cpp:509-555 | One kick step; succeeds exactly for a player that is there |
| `UdpServer.UdpServer.UpdateGameTick` | Server/Net/UdpServer.cpp:597-619 | One tick step; as many kills recorded as happened |
| `UdpServer.UdpServer.ProcessPeerTimeouts` | Server/Net/UdpServer.cpp:1668-1711 | One timeout step; the count of failed match leaves is 0 |
| `UdpServer.UdpServer.ProcessReliableResends` | Server/Net/UdpServer.cpp:1166-1175 | One resend step |
| `UdpServer.UdpServer.ProcessInputCommand` | Server/Net/UdpServer.cpp:1297-1311 | One input step |
| `UdpServer.UdpServer.ProcessFireRequest` | Server/Net/UdpServer.cpp:1313-1326 | One fire step |
| `UdpServer.UdpServer.HandleKeepAlive` | Server/Net/UdpServer.cpp:1115-1120 | One keep-alive step |
| `UdpServer.UdpServer.ApplyLogin` | Server/Net/UdpServer.cpp:1525-1535 | One login step and its result |
| `UdpServer.UdpServer.AuthenticateIncomingPacket` | Server/Net/UdpServer.cpp:846-852 | One authentication step |
| `UdpServer.UdpServer.ProcessReceivedPacket` | Server/Net/UdpServer.cpp:939-945 | One reception step |
| `UdpServer.UdpServer.ExtractCompletedMatches` | Server/Net/UdpServer.cpp:412-416 | Hands out the completed matches, one step |
| `UdpServer.UdpServer.BroadcastSnapshots` | Server/Net/UdpServer.cpp:1581-1586 | Hands out the pending effects and forgets them, one step |
| `UdpServer.UdpServer.Stop` | Server/Net/UdpServer.cpp:365-377 | Completes every match if the server was running and forgets everything else; the tables agree afterwards if and only if it was running or had no peers |

## Left out

- Sockets, I/O completion ports, packet sending, rendering, window and keyboard input, console: foreign calls.
- Threads: the order in which sections take the state mutex is arbitrary in the model, and everything outside the mutex is left out.
- `ThreadPool` and `AsyncLogWriter`: whether every accepted job runs is not decided by the code.
- ODBC, SQL and repositories: of them only that persistent player ids are one-to-one with accounts is taken (Persistence/Schema/DatabaseSchema.cpp:55-66).
- HMAC-SHA256: a function of token and bytes, of which only the tag length is used. Random session tokens are a parameter of the login step, which may also fail to get one.
- Configuration, metrics, log formatting, admin commands and dispatcher tables: long but shallow. The server results take a configuration that the validator accepts: a positive initial room and positive initial hit points (Server/Config/ServerConfigValidator.cpp:74-77, 213-216).
- Snapshot and account packet codecs: member-wise reads and writes that would add easy round trips beside those of the envelopes.
- The responses of the leave, kick and room-change sections: their bytes are a parameter of the step, since the session's handling of them is what the invariants depend on.
- Player snapshot packets, and the context from which snapshot packets are built: only the taking of pending effects is a step.
- `UpdateRenderCorrection`: the smoothing of the render offset over time.
- Null pointers and null buffers: a sequence of bytes is never absent. An empty one is modelled.
- Floating-point rounding, square roots and direction normalisation: reals, a root with its defining property, and arbitrary vectors.
- Bullets passing through walls: the program tests only the end of a bullet's move, so nothing is claimed about the way there.
- 32-bit wrap of kill and death counters and of ticks in the assembler, which compares ticks with plain `<`.
- `ReliableUdpSessionRegistry.ReliableUdpSessionRegistry.ProcessReceivedPacket`: sessions are held by value in the table; that the session object does the same in place is proved of its own class.
- `UdpServerRuns.EveryRunIsSound`: of runs in which no join finds its 32-bit player id in use, which the program does not exclude; `StepKeepsIff` and `FewJoinsMakeARun` say exactly what that costs. `JoinPeer` and `UpsertJoinedPeer` are called by the sections only, as in the program.
- `UdpServer.UdpServer.Stop`: whether the server was running is an argument; starting it is not modelled.
- `ReliableConversation.NoFalseAck`: asks that 32 bits can place each datagram when it is delivered; without that it is false, and `NoFalseAckIff` has the exact condition.
- `LocalPlayerReconciliation.ClientIsNeverCorrected`: for at most 256 unconfirmed inputs, beyond which it is false of the program (`RecordingStaysInStepIff`, `OverflowSnapsToServer`).
- `SnapshotChunkAssembler.SnapshotChunkAssemblerCore.PushChunk`: the calls of the log function are left out.
