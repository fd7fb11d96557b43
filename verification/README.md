# libknock in Dafny

libknock authenticates a TCP connection before the application sees it. A client first
knocks (with an encrypted UDP frame, a sequence of them, or SYN packets whose header
fields carry a keyed hash) or starts the connection with an encrypted envelope. This
project models the parts of the library that decide, and proves what they promise over
whole runs.

- **Stores.** `Cache` is the bounded TTL/LRU store. `Replay`, `Ban`, `Limiter` and
  `SessionStore` are built on it or beside it. Each has a reference that never forgets
  anything (marks, bans, windows), or a step relation whose runs are reasoned about, and the
  class, which sweeps lazily and estimates its size, is proved to follow it.
- **Sequences.** `SynParts` and `SynTracker` recognise SYN sequences sent in order;
  `UdpTrails` (the reference) and `UdpTracker` (the class) recognise UDP sequences sent in
  any order. `SynRuns` and `UdpRuns` say, from the packets alone, what every answer in a
  whole run is.
- **Wire formats.** `Codec`, `Payloads`, `Envelope` and `KnockFrame` encode and decode.
  `Server` and `Auth` open an envelope by trial on a peeked stream. `Checksum`, `SynBuild`
  and `SynParse` build and read raw SYN packets.
- **Freshness.** `Freshness` says exactly how long a mark must live so that no message is
  accepted twice, and `KnockFrame` applies it to UDP knocks.
- **Concurrent steps.** `Timerset`, `Listener` and `ListenerRuns` are about transition
  systems whose steps are what one goroutine does at a time; their theorems are about every
  interleaving.

Conventions. Time is an integer number of nanoseconds since 1970; `Time.ZERO` is Go's zero
time. A method that takes a mutex is one step. Clock readings, random draws and the order
of map iteration are inputs or left open. The cipher is an ideal box: opening succeeds
exactly on what was sealed, recorded in a log. Keyed hashes and key derivation are arbitrary
functions; where a theorem needs them to be collision free, it says so in its `requires`.
Statements about "later" assume that clock readings do not decrease.

Results that are not what one would first expect, each with an input and the exact condition:

- The three-slot acceptance span of a SYN sequence fits the lifetime of its replay mark for
  all slots except -1, 0 and 1 (around 1970), because the slot number is rounded toward
  zero: `SynParts.LongSpanNearEpoch`, `SynParts.AcceptanceSpan`.
- SYN sequences of more than five parts never complete, although the configuration accepts
  lengths up to eight (cmd/knock-proxy/config.go:525-528): only three parts are then sent and
  recognised. `SynRuns.LongNeverCompletes`, `SynRuns.SentCompletesIff`.
- Parts of a UDP sequence that were all accepted do not complete it unless they belong to the
  current attempt: `UdpRuns.WholeIsNotEnough`, `UdpRuns.CompleteIffWhole`.
- The knock payload encoder writes session ids that the decoder refuses, and cuts sequence
  numbers to a byte: `Payloads.KnockRoundTripIff`.
- The TLV decoder reads lists that the encoder refuses to write: `Codec.LongListNotReencoded`,
  `Codec.TlvReencodedIff`.
- A frame can read as an IPv6 SYN to one port and an IPv4 SYN to another:
  `SynParse.ParsersDisagree`, `SynParse.KnockIsPacketIff`.
- A captured IPv4 packet without an Ethernet header is not found at its first byte if it comes
  from 8.0.0.0/16, whose first two bytes read as an Ethernet type: `SynParse.BareIPv4Offset`.
- The default lifetime of replay marks for connections, twice the window, is too short by any
  delay: `Auth.DefaultLifetimeTooShort`, `Auth.ServerFreshIff`. UDP knocks have a longer one.
- A rate limiter of `limit` calls per window lets `2 * limit - 1` calls through in one
  window's length, and no more: `Limiter.BoundReached`, `Limiter.AtMostTwiceLessOne`.
- When the listener has shut down, connections still in its queue keep their source slots,
  and nothing else does: `Listener.SlotLeftInQueue`, `Listener.HeldAtEndIffQueued`.

## Model

| member | source | states |
|---|---|---|
| Cache.TTLLRU.constructor | internal/cache/ttl_lru.go:22-27 | an empty cache; a capacity below 1 becomes 1 |
| Cache.TTLLRU.SetLocked | internal/cache/ttl_lru.go:213-229 | an update keeps every other entry; an insert into a full cache drops exactly the least recently touched entry and nothing else |
| Cache.TTLLRU.SetUntil | internal/cache/ttl_lru.go:33-40 | as SetLocked, but a zero expiry stores nothing |
| Cache.TTLLRU.AddIfAbsent | internal/cache/ttl_lru.go:42-58 | adds iff the key is not live; a live hit is touched and nothing else changes |
| Cache.TTLLRU.Peek | internal/cache/ttl_lru.go:60-72 | the stored entry, live or not, without touching it |
| Cache.TTLLRU.GetAt | internal/cache/ttl_lru.go:78-96 | a live hit is touched, an expired one removed |
| Cache.TTLLRU.Delete | internal/cache/ttl_lru.go:116-128 | removes the key from map and list, and reports whether it was there |
| Cache.TTLLRU.DeleteWhere | internal/cache/ttl_lru.go:130-147 | removes exactly the matching entries and keeps the order of the rest |
| Cache.TTLLRU.Len | internal/cache/ttl_lru.go:152-159 | the number of stored entries, expired ones included |
| Cache.TTLLRU.ActiveLen | internal/cache/ttl_lru.go:170-184 | the number of live entries |
| Cache.TTLLRU.Sweep | internal/cache/ttl_lru.go:194-211 | removes exactly the expired entries and keeps the order of the rest |
| Cache.TTLLRU.RemoveElementLocked | internal/cache/ttl_lru.go:231-235 | map and list lose the same key and stay in bijection |
| Cache.TTLLRU.InOrderOfLastTouch | internal/cache/ttl_lru.go:33-235 | at all times the list is in order of last touch, and the map holds exactly the keys whose last move was a touch; every method states the moves it makes (Set and live Get or AddIfAbsent hits touch, Peek does not) |
| Cache.OrderedByLastTouch | internal/cache/ttl_lru.go:33-235 | the induction over all histories of moves behind it |
| Replay.MemoryReplayCache.WithLimit | auth/replay.go:46-54 | an empty cache with the default lifetime and limit for values below 1 |
| Replay.MemoryReplayCache.CheckAndMark | auth/replay.go:56-85 | exactly the reference: replay iff the key is live, full iff it is not and the live marks have reached the limit, otherwise accepted until now+ttl, although the active counter can over-count |
| Replay.MemoryReplayCache.SweepLocked | auth/replay.go:116-120 | afterwards every stored mark is live and the active counter is exact |
| Replay.MemoryReplayCache.Sweep | auth/replay.go:87-96 | forgets no live mark |
| Replay.SynReplayCache.CheckAndMark | knock/replay.go:43-73 | the same reference answers as the memory cache |
| Replay.ReplayIffRecentAccept | auth/replay.go:56-85 | in every run a call is refused as a replay iff the same key was accepted less than ttl before |
| Replay.AcceptLeavesMark | auth/replay.go:78-84 | in every run an accepted call leaves a mark of at least its full lifetime |
| Replay.MarkFromAccept | auth/replay.go:78-84 | every mark was left by an accepted call |
| Replay.AnswerIffRecent | auth/replay.go:56-85 | every answer is exact in every run: replay iff the key was accepted less than ttl before, full iff it was not and as many keys as the limit were, accepted otherwise |
| Replay.ReplayKeyInjective | auth/replay.go:61-61 | different (client, nonce) pairs never share a key, even for client ids with NUL bytes |
| SynParts.ComputeSynSeqParts | knock/sequence.go:40-68 | one part per index, all to the protected port; lengths outside 2 to 5 count as 3 |
| SynParts.VerifySynSeqPart | knock/sequence.go:70-84 | finds a client and an accepted slot for the fields iff there are any |
| SynParts.AcceptanceSpan | knock/sequence.go:70-84 | a slot is accepted for less than three slots of time iff it is not -1, 0 or 1, or slots are one second |
| SynParts.LongSpanNearEpoch | knock/sequence.go:70-84 | for the other slots, two instants at least three slots apart that both accept it |
| SynParts.AcceptanceSpanSinceEpoch | knock/sequence.go:70-84 | from 1970 on every slot is accepted for less than three slots of time |
| SynParts.RecognisedOnce | knock/sequence.go:70-84 | with collision-free tags a packet belongs to one client, slot and index at most |
| SynTracker.SynSeqTracker.constructor | knock/synseq_tracker.go:28-34 | no states; the own replay cache remembers for three slots |
| SynTracker.SynSeqTracker.Add | knock/synseq_tracker.go:36-71 | every packet is a step: states, answer and replay marks are exactly determined, the counters equal the number of states in all and per address, and exactly what starts or completes is new to the history, from whatever address |
| SynTracker.SynSeqTracker.PruneLocked | knock/synseq_tracker.go:73-84 | drops exactly the states that waited too long, and counts them off |
| SynTracker.SynSeqTracker.DecInflightLocked | knock/synseq_tracker.go:86-96 | the counters are exact again after a state is gone |
| SynTracker.FreshStart | knock/synseq_tracker.go:56-62 | a first part that the replay cache accepts starts a sequence never started before: acceptance fits the lifetime of a mark |
| SynTracker.HitOnce | knock/synseq_tracker.go:42-55 | at most one state waits for a packet |
| SynTracker.AddDeterministic | knock/synseq_tracker.go:36-71 | the result does not depend on the order in which the map is walked |
| SynTracker.StartedOnce | knock/synseq_tracker.go:36-71 | in every run of packets no two start the same (client, slot), and a start overwrites no state |
| SynTracker.CompletedOnce | knock/synseq_tracker.go:36-71 | in every run no two packets complete the same (client, slot), and what completes was started |
| SynTracker.CompletionReported | knock/synseq_tracker.go:42-71 | in every run completion is reported exactly when a sequence completes, and for its client |
| SynTracker.RunHistory | knock/synseq_tracker.go:36-71 | at every point of a run the states and marks are accounted for by exactly what its packets started and completed |
| SynTracker.StepKeeps | knock/synseq_tracker.go:36-71 | every packet keeps that account |
| SynTracker.StateKeyInjective | knock/synseq_tracker.go:66-66 | address, client and slot can be read back from a state key |
| SynTracker.SynNonceInjective | knock/frame.go:57-68 | different fields never share a replay nonce |
| SynRuns.CompleteIffChain | knock/synseq_tracker.go:36-71 | in every run complete is answered, for that client, to exactly the packets that end a chain: parts 0, 1, 2, ... of one client and slot up to the last one, from one address, each the first of its kind after the one before, within the window of the first, which was let in as a start |
| SynRuns.CompletesIffChain | knock/synseq_tracker.go:42-65 | the same for each (client, slot) |
| SynRuns.CompletionIsChain | knock/synseq_tracker.go:42-55 | what completes is such a chain, given step by step |
| SynRuns.ChainCompletes | knock/synseq_tracker.go:42-55 | every such chain completes with its last part, whatever arrives in between |
| SynRuns.StateIsChain | knock/synseq_tracker.go:45-51 | invariant of every run: a stored state stands for a chain begun by a start, and holds the number of its parts and when it began |
| SynRuns.StartsIff | knock/synseq_tracker.go:56-69 | in every run a packet starts a sequence iff it is its part 0, no chain waits for it, the waiting chains of its address and all of them are below their limits, no start within the lifetime of a mark had the same client and fields, and the replay cache has room |
| SynRuns.SentCompletesIff | knock/sequence.go:40-75 | the last packet of a client that sends all its parts in order, from one address and in time, the first of them let in, completes its sequence iff the length is 2 to 5 |
| SynRuns.LongNeverCompletes | knock/synseq_tracker.go:42-55 | with a length above 5 no run ever completes a sequence |
| SynRuns.SentIffPart | knock/sequence.go:40-75 | the parts that are recognised are exactly those the client sends |
| SynRuns.LiveIffOpen | knock/synseq_tracker.go:73-84 | in every run the states left after pruning are exactly the chains that wait within the window |
| SynRuns.LiveMarkIffRecent | knock/synseq_tracker.go:60-62 | in every run the live marks are exactly those of the starts within their lifetime |
| UdpTracker.SequenceTracker.constructor | knock/udp_seq.go:35-41 | an empty tracker with normalised options |
| UdpTracker.SequenceTracker.Add | knock/udp_seq.go:176-223 | states, blocks, counters and answer follow a step of the reference on every packet |
| UdpTracker.SequenceTracker.AddNext | knock/udp_seq.go:204-222 | a further part is decided as in the reference; after pruning the timeout branch is unreachable |
| UdpTracker.SequenceTracker.PruneLocked | knock/udp_seq.go:229-240 | drops the timed-out attempts in any order and blocks their keys while there is room; none that has timed out is left |
| UdpTracker.SequenceTracker.MarkCompletedLocked | knock/udp_seq.go:242-249 | blocks a key if the live blocks leave room, and never evicts a live one |
| UdpTracker.SequenceTracker.RemoveLocked | knock/udp_seq.go:251-259 | one state goes and both counters follow |
| UdpTracker.SplitStateKey | knock/udp_seq.go:261-271 | the parts contain no NUL, joined they give the key, and the first is the address |
| UdpTracker.SequenceStateKeyInjective | knock/udp_seq.go:225-227 | the key determines source, client, sequence id, port and method |
| UdpRuns.CompleteIffWhole | knock/udp_seq.go:182-223 | in every run a packet is answered complete iff its index is good and the current attempt of its key, with it, carries every index once, one session id, within the window of the first |
| UdpRuns.AnswerIff | knock/udp_seq.go:176-223 | every answer is exact in every run, each rejection included: from the index and total, the current attempt of the key, the number of attempts in progress of the address and in all, and the block of the key |
| UdpRuns.LiveIffInProgress | knock/udp_seq.go:191-203 | in every run the states left after pruning are exactly the attempts in progress, of each address and in all, read off packets and answers |
| UdpRuns.BlockedWasEnded | knock/udp_seq.go:229-249 | in every run a block was set when an attempt of its key completed or timed out, and lasts the nonce lifetime from then on |
| UdpRuns.CurrentArePartial | knock/udp_seq.go:182-223 | the current attempt, read off packets and answers alone, is made of earlier packets of the key answered partial |
| UdpRuns.TrailIsCurrent | knock/udp_seq.go:194-223 | in every run the state kept for a key is that attempt |
| UdpRuns.CompleteHasParts | knock/udp_seq.go:182-223 | every completion has its earlier partial packets |
| UdpRuns.WholeIsNotEnough | knock/udp_seq.go:187-189 | the attempt must be current: a last part sent again is whole with the first part, and is refused |
| UdpTrails.SoundAfter | knock/udp_seq.go:182-223 | every packet keeps the invariant: attempts strictly partial, at most the maximum in all and per address |
| UdpTrails.RunSound | knock/udp_seq.go:176-271 | the invariant holds in every reachable state |
| UdpTrails.RefusedUntilExpiry | knock/udp_seq.go:187-189 | in every run a blocked key is rejected until its block expires, whatever arrives in between |
| UdpRuns.EndedKeyRefused | knock/udp_seq.go:182-249 | in every run, if there is room when the attempt of a key ends, by completion or by timeout, every later packet of the key is refused for the nonce lifetime |
| UdpTrails.BlockHolds | knock/udp_seq.go:187-189 | no step lifts a live block |
| Freshness.KnockReplayTTL | internal/gatewaycore/misc.go:20-29 | the lifetime exceeds twice the window by a second at least |
| Freshness.AcceptedOnce | knock/binary_frame.go:282-291 | marks that outlive the whole window and the delay let every message in at most once in every run |
| Freshness.FreshIff | knock/binary_frame.go:282-291 | that condition is exact: with shorter marks some run accepts a message twice |
| Freshness.TwiceIsAcceptedTwice | knock/binary_frame.go:282-291 | with shorter marks every message can be accepted twice |
| Freshness.AcceptedIff | knock/binary_frame.go:282-291 | every answer is exact in every run: accepted iff authentic, within the window, not accepted less than ttl before, and with room in the cache |
| Auth.ServerFreshIff | auth/server.go:274-295 | the exact lifetime of marks that connections need: the whole window and the delay between check and mark |
| Auth.DefaultLifetimeTooShort | auth/server.go:33-35 | the default lifetime of twice the window is too short by any delay at all |
| Auth.PeerIsDelivery | auth/server.go:274-295 | checking a peer accepts and marks as the freshness model says |
| Auth.FailureIff | auth/server.go:274-295 | every refusal is exact in every run: the wrong port, a timestamp further from the clock than the window, a sender and nonce accepted less than ttl before, or as many of those as the cache holds, in this order |
| KnockFrame.HeaderRoundTrip | knock/binary_frame.go:346-368 | a decoded header is the one that was encoded |
| KnockFrame.FindClient | knock/binary_frame.go:243-262 | the first client whose hint, key and hash fit; a message that opens but cannot be read ends the search |
| KnockFrame.OpenKnockFrame | knock/binary_frame.go:196-314 | opens iff the packet is authentic, within the window and not marked; it leaves a mark only if it reached the replay check |
| KnockFrame.PacketAcceptedOnce | knock/binary_frame.go:282-291 | in every run, while clients go on sealing, the same packet opens at most once, for every window and timestamp, with a cache lifetime of KnockReplayTTL |
| KnockFrame.PacketAcceptedOnceInTime | internal/gatewaycore/misc.go:20-29 | so with any delay below a second between the check of the time and the mark |
| KnockFrame.AuthenticMeans | knock/binary_frame.go:196-281 | only what a configured client sealed for this very packet and port is authentic, and then header, flags, port, method, type and sequence numbers all fit |
| KnockFrame.PacketAcceptedIff | knock/binary_frame.go:196-314 | in every run a packet is accepted iff it is authentic, within the window, its client and nonce were not accepted less than ttl before, and the cache has room |
| KnockFrame.FindIff | knock/binary_frame.go:243-262 | the search ends at the first client whose hint fits, who sealed the message and whose hash it carries or cannot be read from it; it is a hit iff the message can be read |
| KnockFrame.HitIsSealedBy | knock/binary_frame.go:243-262 | the client found is configured, its hint fits, and it sealed the message |
| KnockFrame.BuildKnockFrame | knock/binary_frame.go:103-190 | builds iff the options can be written and the frame is not too large, and what it builds |
| KnockFrame.BuiltOpensIff | knock/binary_frame.go:103-314 | a built frame opens at a server iff the server knows the sender and agrees on port, hint, size, method and sequences, and then it opens to what was put in |
| Codec.BinaryReader.ReadVar8 | internal/codec/codec.go:38-54 | reads exactly one length-prefixed string or fails at the end of the buffer |
| Codec.EncodeTLVs | internal/codec/codec.go:84-101 | writes a list iff its encoding fits 65535 bytes |
| Codec.DecodeTLVs | internal/codec/codec.go:103-122 | reads exactly what the encoder writes |
| Codec.TlvRoundTrip | internal/codec/codec.go:84-122 | decode after encode gives the list back, of any total length |
| Codec.TlvCanonical | internal/codec/codec.go:84-122 | every accepted byte string, of any length, is the written form of what it is read as |
| Codec.TlvReencodedIff | internal/codec/codec.go:84-122 | the encoder gives accepted bytes back iff there are at most 65535 of them |
| Codec.LongListNotReencoded | internal/codec/codec.go:84-101 | a list that is read and not written again |
| Payloads.EncodePayload | protocol/frame.go:213-237 | writes iff port and lengths fit, with the right error otherwise |
| Payloads.DecodePayload | protocol/frame.go:239-285 | reads what the grammar of the payload says |
| Payloads.PayloadRoundTrip | protocol/frame.go:213-285 | decode after encode gives the payload back |
| Payloads.PayloadCanonical | protocol/frame.go:213-285 | encode after decode gives the bytes back, for all accepted bytes |
| Payloads.EncodeEnvelopeV2Payload | protocol/envelope_v2.go:316-342 | writes iff port and lengths fit, with the right error otherwise |
| Payloads.DecodeEnvelopeV2PayloadWithLength | protocol/envelope_v2.go:355-404 | the payload at the start and the position after it |
| Payloads.PayloadV2RoundTrip | protocol/envelope_v2.go:316-404 | decode after encode gives the payload back, whatever follows it |
| Payloads.PayloadV2Canonical | protocol/envelope_v2.go:316-404 | encode after decode gives the bytes back |
| Payloads.EncodeKnockPayload | knock/binary_frame.go:402-440 | writes iff method, port and lengths fit |
| Payloads.DecodeKnockPayload | knock/binary_frame.go:442-505 | reads what the grammar of the payload says |
| Payloads.KnockReadBack | knock/binary_frame.go:402-505 | what the decoder makes of every encoded payload |
| Payloads.KnockRoundTripIff | knock/binary_frame.go:402-505 | a payload survives iff its session id is empty or long enough and its sequence numbers fit a byte |
| Payloads.KnockCanonical | knock/binary_frame.go:402-505 | encode after decode gives the bytes back for every accepted payload with a port of at least 1 |
| Buckets.EnvelopeV2Buckets | protocol/envelope_v2.go:432-451 | exactly the supported sizes that were named, or all, in increasing order |
| Buckets.Sort | protocol/envelope_v2.go:445-449 | insertion sort in place: sorted and a permutation |
| Envelope.BuildEnvelopeV2 | protocol/envelope_v2.go:112-203 | builds iff the input is acceptable and the bucket that is drawn among the fitting ones also has room for the two bytes of the padding length; what is built fills that bucket exactly and holds the request and the padding, noise or zeros as configured |
| Envelope.PickableIff | protocol/envelope_v2.go:150-163 | exactly the configured bucket sizes that are large enough can be drawn |
| Envelope.PaddingIs | protocol/envelope_v2.go:177-187 | random padding can be anything, otherwise it is zeros |
| Envelope.OpenEnvelopeV2Payload | protocol/envelope_v2.go:223-246 | opens to a payload iff the padding length accounts for every byte and version and flags are known |
| Envelope.BodyRoundTrip | protocol/envelope_v2.go:174-246 | a padded body reads back whatever the padding |
| Envelope.BodyCanonical | protocol/envelope_v2.go:223-246 | everything accepted is a payload followed by padding and its length |
| Envelope.EnvelopeOpens | protocol/envelope_v2.go:112-246 | a built envelope opens to the request it was built from |
| Envelope.AadDeterminesBucket | protocol/envelope_v2.go:414-430 | a sealed body is bound to its bucket size |
| Server.TryAll | auth/server.go:209-250 | the nested loops stop at the first attempt that succeeds, runs out of budget or of bytes, consume nothing, try no more often than the budget allows (exactly as often if it runs out), and ask for no byte beyond the bucket they reached |
| Server.OnlyTheEnvelopeOpens | auth/server.go:256-272 | whatever a candidate opens is the envelope, at its own bucket, and names its sender |
| Server.EnvelopeIsFound | auth/server.go:189-252 | for every envelope followed by any bytes the loops stop at its own bucket with the sender's identity, having asked for no byte past it |
| Server.BudgetEnough | auth/server.go:209-250 | attempts for every candidate on every usable bucket are always enough |
| Auth.ResolveCandidates | auth/types.go:176-205 | the candidates of all matching clients and versions, in the order of the given client ids |
| Auth.KnownIsResolved | auth/types.go:176-205 | every configured secret that matches the hint is a candidate |
| Auth.ResolvedIsKnown | auth/types.go:176-205 | every candidate is a configured secret of its client that matches the hint |
| Auth.StaticCandidateCount | auth/types.go:294-307 | the number of secrets, in whatever order the map is walked |
| Auth.CountInAnyOrder | auth/types.go:294-307 | that number does not depend on the order |
| Auth.EnvelopeV2NoneAttemptCost | auth/types.go:280-292 | candidates times usable buckets |
| Auth.Validate | auth/types.go:250-278 | passes iff the frame size fits and, when envelopes are preferred or accepted, the buckets fit and with hint mode none the attempt cost fits the budget |
| Auth.NeverOutOfBudget | auth/server.go:209-250 | a server that validated with hint mode none never runs out of attempts, on any frame |
| Auth.BudgetIff | auth/types.go:250-292 | the validation of the attempt budget is exact: without empty secrets, a configuration with hint mode none passes iff no frame can make the server run out of attempts |
| Auth.ValidatePeerCommon | auth/server.go:274-295 | port, window and replay in this order, each with its own failure; a peer outside the window leaves no mark |
| Auth.WelcomeIsDelivered | auth/server.go:189-252 | hint mode, bucket, candidate and budget that fit put the sender's attempt within reach |
| Auth.FoundIsSealed | auth/server.go:209-272 | a peer is found only if the bytes up to a configured bucket size were sealed with a configured secret of that client for this header and port, and say what the peer says |
| Auth.AuthenticateEnvelopeV2 | auth/server.go:189-252 | clean hand-over: such an envelope, followed by any application bytes, is consumed exactly, no byte past it is asked for, and its sender is found; a peer that is found is accepted iff its port, time and nonce are, and leaves the mark of that check; a peer is found only if a holder of a configured secret of that client sealed the bytes; without one no mark is left and the failure says which of the searches ended |
| Auth.HeaderV1RoundTrip | protocol/frame.go:123-147 | a decoded header is the one that was encoded |
| Auth.HeaderV1Canonical | protocol/frame.go:123-147 | every header is the encoding of what it decodes to |
| Auth.ReadFrame | protocol/frame.go:92-121 | for every limit, reads exactly the well-formed frames that fit, and consumes exactly their bytes; a limit below the header reads nothing |
| Auth.Route | auth/server.go:133-152 | a server that accepts both protocols routes every frame to its own decoder, without consuming a byte |
| Checksum.InternetChecksum | knock/syn_packet.go:381-394 | the complement of the one's-complement sum, in wrapping 32-bit arithmetic; the folding loop ends |
| Checksum.OddIsPadded | knock/syn_packet.go:387-389 | data of odd length is summed as if a zero byte followed |
| Checksum.NoOverflow | knock/syn_packet.go:381-394 | up to 131072 bytes the 32-bit sum does not wrap |
| Checksum.StoredVerifies | knock/syn_packet.go:361-394 | storing the checksum in its zeroed, even-aligned field makes the recomputed checksum 0 |
| Checksum.VerifiesIff | knock/syn_packet.go:381-394 | data verifies iff its words sum to a positive multiple of 65535 |
| Checksum.ChangeNoticed | knock/syn_packet.go:381-394 | a changed word is noticed unless it exchanges the two zeros of one's-complement arithmetic |
| SynBuild.BuildSynPacket | knock/syn_packet.go:53-94 | fails iff an address has no 4-byte form; otherwise, byte by byte: version, lengths, identification, time to live and protocol, the source address at 12 and the destination address at 16, ports and knock fields in network order, a header checksum that verifies, and a TCP checksum that verifies under the addresses the packet itself carries |
| SynBuild.BuildSynPacketIPv6 | knock/syn_packet.go:96-131 | fails iff an address is not IPv6; otherwise the same for the IPv6 header and its pseudo header |
| SynBuild.PacketIPv4Reads | knock/syn_packet.go:60-93 | what the bytes of the IPv4 packet say, for all addresses, ports, identifications and fields |
| SynBuild.PacketIPv6Reads | knock/syn_packet.go:103-130 | the same for the IPv6 packet |
| SynBuild.TcpHeaderReads | knock/syn_packet.go:78-92 | what the bytes of the TCP header say |
| SynBuild.IPv4HeaderVerifies | knock/syn_packet.go:62-75 | every built IPv4 header verifies |
| SynBuild.TcpHeaderVerifies | knock/syn_packet.go:361-379 | every built TCP segment verifies under its IPv4 or IPv6 pseudo header |
| SynParse.FindIPv4Offset | knock/syn_packet.go:279-306 | the place the Ethernet type gives, otherwise the first that looks like an IPv4 header |
| SynParse.FindIPv6Offset | knock/syn_packet.go:308-333 | the place the Ethernet type gives, otherwise the first that looks like an IPv6 header |
| SynParse.ParseTimestamp | knock/syn_packet.go:335-359 | the first well-formed timestamp option, if the options before it are well formed |
| SynParse.BuildEthernetIPv4Frame | knock/windows_net.go:56-63 | destination, source, type, packet |
| SynParse.NoIPv6Reading | knock/syn_packet.go:133-178 | no place in a framed IPv4 SYN reads as an IPv6 SYN |
| SynParse.FrameRoundTrip | knock/syn_packet.go:53-198 | a framed IPv4 packet always reads back to the source, port and fields it was built from |
| SynParse.FrameRoundTripIPv6 | knock/syn_packet.go:96-198 | the same for IPv6 packets in frames that say so |
| SynParse.PacketIsKnock | knock/syn_packet.go:133-277 | what the port-blind parser reads, the parser for that port reads too |
| SynParse.KnockIsPacketIff | knock/syn_packet.go:133-277 | the converse holds iff the frame does not also read as an IPv6 SYN to another port |
| SynParse.ParsersDisagree | knock/syn_packet.go:133-277 | a frame on which the two parsers disagree |
| SynParse.TimestampReadBack | knock/syn_packet.go:335-359 | the first timestamp option is read whatever well-formed options come before it and whatever follows; without one before the end of the list, nothing is |
| SynParse.SegmentReadIff | knock/syn_packet.go:180-198 | any segment, with any options and data, is read iff it is a SYN with a timestamp option, and then to its destination port and knock fields |
| SynParse.OnlySynIff | knock/syn_packet.go:184-187 | in terms of the flag bits: SYN set, ACK and RST clear, the others do not matter |
| SynParse.AnyIPv4Read | knock/syn_packet.go:137-159 | every well-formed IPv4 packet, with any header options, in a frame with or without a VLAN tag and with any padding, yields its source and its segment |
| SynParse.AnyIPv6Read | knock/syn_packet.go:161-178 | the same for IPv6 packets |
| SynParse.BareIPv4Offset | knock/syn_packet.go:281-306 | a well-formed IPv4 packet without an Ethernet header is found at its first byte iff its addresses do not read as an Ethernet type |
| SynParse.BareIPv4Read | knock/syn_packet.go:133-159 | and then yields its source and its segment |
| SynParse.TaggedOffset | knock/syn_packet.go:281-292 | the header is found behind the Ethernet type, with or without a VLAN tag |
| Limiter.Limiter.WithLimit | policy/limiter.go:39-47 | an empty limiter; values below 1 become the defaults |
| Limiter.Limiter.AllowAt | policy/limiter.go:56-88 | exactly the reference that never sweeps: an open window allows up to the limit, a new one needs a place among the open windows |
| Limiter.Limiter.SweepLocked | policy/limiter.go:138-147 | removes exactly the windows that have passed |
| Limiter.Limiter.SweepPeriodicallyLocked | policy/limiter.go:115-136 | changes no answer |
| Limiter.Limiter.RemoveBucketLocked | policy/limiter.go:149-155 | map and list lose the same key |
| Limiter.AtMostTwiceLessOne | policy/limiter.go:56-88 | in every run every half-open interval of one window's length has at most 2·limit−1 allowed calls for a key |
| Limiter.BoundReached | policy/limiter.go:56-88 | for every limit a run in clock order reaches that bound |
| Limiter.AllowedIff | policy/limiter.go:56-88 | every answer is exact in every run: allowed iff the window of the key has fewer calls than the limit, or the key has none and fewer keys than the maximum have one |
| Limiter.WindowIsCalls | policy/limiter.go:67-87 | in every run the window of a key began with the first of its allowed calls since, and counts them all |
| Ban.BanList.WithLimit | policy/ban.go:25-33 | an empty list with the default capacity for values below 1 |
| Ban.BanList.BanUntilE | policy/ban.go:55-72 | refuses iff the key is new and active bans fill the list, and then changes no ban |
| Ban.BanList.IsBannedAt | policy/ban.go:81-98 | reports a key iff its ban is active or active bans fill the list |
| Ban.BanList.Unban | policy/ban.go:100-107 | takes back that ban only |
| Ban.BanList.Sweep | policy/ban.go:109-116 | changes no answer |
| Ban.BanPersists | policy/ban.go:55-98 | in every run a stored ban is reported until it expires, whatever happens to other keys |
| Ban.RefusalFailsClosed | policy/ban.go:55-98 | after a refusal every non-empty key is reported for as long as all slots hold active bans, renewed ones included |
| Ban.ReportedIffFull | policy/ban.go:81-98 | a key nobody banned is reported iff the list is full of active bans |
| Ban.ReportedIff | policy/ban.go:55-98 | every answer is exact in every run: reported iff a ban of the key stands and has not expired, or as many keys as the list holds have such a ban; refused iff the key has none and as many other keys have |
| Ban.HeldIffStands | policy/ban.go:55-107 | in every run the list holds exactly the bans it took that were neither replaced nor taken back since |
| SessionStore.KnockSessionStore.WithLimit | relay/session.go:40-45 | an empty store with the default capacity for values below 1 |
| SessionStore.KnockSessionStore.AddSessionForPort | relay/session.go:57-70 | a step of the session store: grants the uses to the key, in the place of an older grant, and drops one other session only if the store is full |
| SessionStore.KnockSessionStore.CheckAndConsume | relay/session.go:71-105 | a step of the session store, and the answer of that step; the second lookup for port 0 never changes the answer. Sessions.AnswerIff and Sessions.StoredIff say what the answers of all runs are |
| SessionStore.KnockSessionStore.GetSessionLocked | relay/session.go:110-120 | a live session, or the removal of an expired one |
| SessionStore.KnockSessionStore.Remove | relay/session.go:122-129 | drops exactly the sessions of a client at an address |
| SessionStore.KnockSessionStore.RemoveForPort | relay/session.go:130-137 | drops exactly the session for one port |
| SessionStore.KnockSessionStore.Expire | relay/session.go:138-147 | drops exactly the expired ones among them |
| SessionStore.KnockSessionStore.ExpireForPort | relay/session.go:148-157 | drops the session for one port iff it has expired |
| Sessions.PortMismatchOutOfRange | relay/session.go:97-99 | for ports up to 65535 the port check never refuses |
| Sessions.UsesConserved | relay/session.go:57-120 | in every run of the store a key is used at most as often as all its grants together allow |
| Sessions.EveryUseCovered | relay/session.go:83-104 | in every run whoever is let in is covered by the latest grant of the key: before it expires, session id empty or equal, and with fewer uses since than it granted |
| Sessions.AnswerIff | relay/session.go:83-104 | every answer is exact in every run: no session iff none is stored, expired iff the latest grant of the key has, id mismatch iff that grant names another id, port mismatch only beyond port 65535; with a port in range it lets in iff a session is stored, in time, and the id of the grant is empty or equal |
| Sessions.StoredIff | relay/session.go:57-120 | in every run a session is stored iff since its latest grant it was not dropped, no use came after it expired, and not all its uses are taken |
| Sessions.DropsOnlyIf | relay/session.go:57-70 | in every run a session is dropped only by a removal, or by a grant of another key while the store is full |
| Sessions.StoredIsBacked | relay/session.go:57-120 | in every run a stored session is the latest grant of its key less the uses since, and has a use left |
| Sessions.LeftOver | relay/session.go:100-104 | what the store still holds of a key was never given out |
| SessionStore.KnockSessionStore.MarkFirewall | relay/session.go:163-189 | a step of the lease store: issues the next id iff the key is live or there is room, and loses no live lease of another key |
| SessionStore.KnockSessionStore.ExpireFirewall | relay/session.go:190-202 | a step of the lease store, and whether that step ends a lease; Leases.EndsIff says when, over all runs |
| SessionStore.KnockSessionStore.RemoveFirewall | relay/session.go:203-210 | drops that lease only |
| SessionStore.FirewallKeyInjective | relay/session.go:230-232 | different addresses or ports never share a lease |
| Leases.IdsIncrease | relay/session.go:176-188 | in every run ids strictly increase, so none is issued twice |
| Leases.EndedOnce | relay/session.go:190-202 | in every run of the store no id ends twice |
| Leases.EndedWasIssued | relay/session.go:163-202 | in every run a lease ends only after it was issued for that key, when its time has passed |
| Leases.StaleNeverEnds | relay/session.go:172-202 | in every run what ends a lease carries an id no older than any issued for the key: a stale timer never ends a renewed lease |
| Leases.EndsIff | relay/session.go:190-202 | in every run a timer ends a lease iff the lease issued with its id for its key is still stored and its time has passed; otherwise nothing changes |
| Leases.StoredIff | relay/session.go:163-210 | in every run a lease is stored until a new lease of its key, a mark that finds it expired, its own timer or a removal takes it away, and no longer |
| Leases.IssuedIff | relay/session.go:163-189 | in every run a lease is issued iff the key has an active one or fewer keys than the limit have, and the other active leases stay |
| Timerset.WaitCounts | internal/timerset/timerset.go:20-57 | in every run the wait count is the number of unresolved timers |
| Timerset.NothingAfterStop | internal/timerset/timerset.go:43-57 | once a call that stops the set has ended, each timer registered before it was cancelled or its callback has finished |
| Timerset.BeforeIsAll | internal/timerset/timerset.go:43-57 | the timers such a call answers for are all those registered when it began |
| Timerset.UnresolvedMovesOn | internal/timerset/timerset.go:20-57 | every unresolved timer has a step that is possible |
| Timerset.NoneLeftArmed | internal/timerset/timerset.go:43-57 | when a call that stops the set waits, none of the timers registered before it is still waiting for its time, unless another such call has taken it and has yet to look at it |
| Timerset.RegisteredIff | internal/timerset/timerset.go:28-50 | in every run the set holds exactly the timers that were registered, whose callback has not started since, and that no call took |
| Timerset.TakenOnce | internal/timerset/timerset.go:47-55 | in every run no timer is both in the set and taken, or taken by two calls |
| Timerset.CalledBackIff | internal/timerset/timerset.go:28-34 | in every run the callback of a timer started iff a step fired it, and no timer fires twice: a cancelled timer never ran |
| Timerset.StepKeeps | internal/timerset/timerset.go:20-57 | every step keeps the invariant |
| Listener.NeverPanics | netx/listener.go:159-236 | in every run neither channel is sent on after close or closed twice, and the wait group never goes below zero |
| Listener.CountIsHolders | internal/iplimit/iplimit.go:89-116 | in every run the count of a source is the number of its connections that hold a slot, and at most the maximum |
| Listener.HeldIffInHand | netx/listener.go:172-269 | in every run exactly the connections at the accept loop, in the queue or being authenticated that are due a slot hold it: none is lost, none is held longer |
| Listener.HeldAtEndIffQueued | netx/listener.go:159-236 | when the ready channel is closed, exactly the connections left in the queue that were due a slot still hold it |
| Listener.SlotLeftInQueue | netx/listener.go:142-236 | a run that shuts down with a connection in the queue and its slot held |
| ListenerRuns.HandedOverWasAuthenticated | netx/listener.go:219-236 | in every run a connection that is handed over was authenticated with success before, by the same worker |
| ListenerRuns.FailedNeverOffered | netx/listener.go:223-230 | in every run a connection whose authentication failed is never offered and never handed over |
| ListenerRuns.ReleasedThen | netx/listener.go:223-231 | in every run the release after an authentication is followed by the offer of the connection if it succeeded, and by the next connection if it failed |
| ListenerRuns.CarriedWasAuthenticated | netx/listener.go:219-236 | what a worker carries is a connection that it authenticated, with that result, and has carried since |
| ListenerRuns.AuthenticatedOnce | netx/listener.go:219-236 | in every run a connection is authenticated at most once |
| ListenerRuns.HandedOverOnce | netx/listener.go:219-236 | in every run a connection is handed over at most once |
| ListenerRuns.QueueIsFifo | netx/listener.go:199-221 | in every run the workers take connections in the order in which they were queued, and the queue never exceeds its capacity |
| ListenerRuns.RefusedIff | internal/iplimit/iplimit.go:89-105 | in every run the limiter refuses a connection iff it is due a slot and its source already has the maximum; otherwise the connection goes on with the slot it is due |
| ListenerRuns.DroppedThen | netx/listener.go:199-210 | in every run the accept loop ends after a connection dropped because the listener is done, and goes on after one dropped because the queue is full |
| ListenerRuns.AcceptorOutForGood | netx/listener.go:176-205 | in every run the accept loop accepts nothing once it has stopped |
| ListenerRuns.WorkerOutForGood | netx/listener.go:219-236 | in every run a worker that gave up an offer, or found the queue closed and empty, takes no connection any more |
| ListenerRuns.DoneIff | netx/listener.go:142-190 | in every run the listener is done iff it was closed or the inner listener failed for good |
| Listener.StepKeeps | netx/listener.go:142-236 | every step keeps the invariant behind the theorems about runs: channels, counts, and where each connection is |

## Left out

- The firewall backends (nftables, iptables, ipset, scripts): command strings for external tools.
- That every firewall rule is eventually revoked by its timer: a sweep may drop an expired lease first, so lease claims stay at the level of the store.
- SYN sequences in legacy mode with random ports, and the single-packet SYN knock check.
- The trial loop of the older frame protocol over its candidates; only its header, payload and routing are modelled.
- Server proofs, fail delay, draining, deadlines, relaying and dialling.
- Actual cryptography, constant-time comparison and randomness; label strings are kept, key material is abstract.
- Raw sockets, packet filters and Windows capture code; only the pure Ethernet framing function is modelled.
- Error kinds: decoders and openers answer with an option where the source distinguishes several errors.
- Nil receivers, mutexes and the clock interface: methods are atomic and clock readings are parameters.
- Overflow of 64-bit durations and the saturation of time differences; lease ids do not wrap at 2^64.
- Cache.TTLLRU: list elements are identified by their key and sessions are values, so pointers shared between list and map are not modelled; DeleteExpired, LenAfterSweep and Cap are not used by any store modelled here.
- SessionStore.KnockSessionStore.MarkFirewall: the clock is assumed not to be before year 1.
- Sessions.DropsOnlyIf: which session a full store drops for a new key is left open in runs of the store; Cache.TTLLRU.SetUntil says that it is the least recently touched.
- SynTracker.SynSeqTracker.constructor: the tracker always owns its replay cache; one handed in by the caller is not modelled.
- SynTracker.SynSeqTracker.Add: assumes collision-free tags, a clock from 1970 on and the replay cache read at the same clock value.
- UdpTracker.SequenceTracker.Add: addresses are assumed to contain no NUL byte.
- Replay.MemoryReplayCache.CheckAndMark: the clock is read before the lock in the source; readings are assumed not to decrease between calls.
- Auth.ResolveCandidates: the sort of client ids is taken as given, any enumeration of the ids is allowed, and the key-hint branch of the older frame protocol is not modelled.
- Auth.Validate: only the checks of sizes, buckets and attempt budget are modelled, not those of unknown protocol, hint-mode or padding names.
- Auth.AuthenticateEnvelopeV2: the buffer limit of the buffered reader is not modelled.
- Envelope.BuildEnvelopeV2: unknown hint-mode and padding strings, which configuration checks refuse, are not modelled.
- Timerset.UnresolvedMovesOn: every callback is taken to return; one that itself stops the set would wait for itself.
- KnockFrame.PacketAcceptedOnce: assumes that no two keys seal to the same bytes under one nonce and binding.
- Timerset.NothingAfterStop: callers are assumed not to stop a returned timer themselves, as none in the repository does, and callbacks not to panic.
- Listener.NeverPanics: the in-flight map, which only speeds up closing, and accept backoff times are not modelled.
