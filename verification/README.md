# Verified model of the tunnel's transport, relay and client logic

A Dafny 4.11 model of the parts of this proxy in which bytes, connections or events can get lost,
duplicated or stuck, with proofs about every run and every input. `dafny verify dfyconfig.toml`
checks all of it.

| files | what they model |
|---|---|
| `WSSpec`, `WSRun`, `WSTheorems`, `WSReports`, `WSNetConn` | `WSNetConn`: batching writes into websocket messages by size, cap and timer, reading them back as a byte stream, failure and close |
| `DeadSignal` | any number of goroutines inside `signalDead` at once |
| `DialRace`, `IPStrategy` | the dial race as interleaved goroutines, and which addresses it tries in what order |
| `DnAggSpec`, `DnAggTheorems`, `DnAggregator` | the downstream aggregator: writers and a flusher that writes with the lock released |
| `EchParser`, `DnsMessage` | the DNS response walker against the wire grammar of section 4.1 of RFC 1035 and section 2.2 of RFC 9460 |
| `Codec`, `Tunnel` | the open header, chunks and addressed replies, over streams with arbitrarily short reads |
| `TcpPipe` | the TCP relay's reader, dialer, main loop and copier with their three channels |
| `UdpAssoc` | the SOCKS5 UDP association's state machine |
| `BestStream` | the near-minimum round robin over channels |
| `Socks5Udp` | SOCKS5 UDP datagrams, section 7 of RFC 1928 |
| `Bytes`, `Arith` | byte strings, big-endian lengths, division |

Objects whose methods update fields are classes; each method is proved to do to its fields what a
function does to their value, and the properties are proved about that function over all runs.
Goroutines are steps of a state machine at the granularity of the locks and channel operations: a
`Write` of `WSNetConn` is its unlocked test of `closed` and its section under `upMu`, which reads
`closed` at most once, so that setting the flag only between sections loses no interleaving. What the
socket, the resolver, the runtime's timers and `select` answer are parameters or free choices.

What the proofs found in the code as it stands:

- `WSNetConn` can put a payload on the wire after `Close` has thrown earlier accepted bytes away: a
  writer already past the test of `closed` writes a payload above `maxQueue` directly
  (`WSTheorems.LateDirectHappens`). This one step is the only way the wire stops being a prefix of what
  was written (`WSTheorems.GapFreeIffNoLateDirect`, and in terms of the calls alone, without failures,
  `GapIffDropThenLarge`), and it cannot happen for payloads up to `maxQueue`.
- As long as no stream write fails, `DnAggregator` throws away every chunk accepted while a snapshot is
  being written, and nothing else (`DnAggTheorems.CompleteIffNoOverlap`; `OverlapLoses` is such a run). A
  failing write loses its snapshot as well. The retry counter has no effect and the timer never flushes
  what is below the limits (`TimerFlushesOnlyAtLimits`, `TrickleIsHeld`).
- `DnAggregator.Close` signals without the lock. It returns if and only if that signal does not fall
  between the flusher's test of `closed` and its wait, or a writer's signal still comes later
  (`CloseReturnsIff`, with `ClosedRunsAreShort`); otherwise it waits for ever (`CloseCanHang`).
- The DNS walk misreads exactly the owner names that are labels followed by a compression pointer,
  which section 4.1.4 of RFC 1035 allows (`DnsMessage.OwnerNameIff`). Such a name does no harm behind the
  record that is returned (`ExtractionCorrect`); in a response with fewer than 206 bytes of answers it
  hides every record from its own on (`ShortResponseIff`, and `PointedAtIsMissed` for one such response).
- `writeUDPReply` and the SOCKS5 datagram builder truncate without an error; `Codec.ReplyRoundTripIff`
  and `Socks5Udp.BuildThenParse` say exactly when they are faithful. For `writeUDPReply` this is a property
  of the function alone: its caller (internal/relay/tcp.go:181-197) passes what one UDP read put into a
  64 KiB buffer, and a datagram's payload has less than 65536 bytes.

## Model

| member | source | states |
|---|---|---|
| WSTheorems.EndToEnd | internal/transport/wsconn.go:82-220 | in every interleaving of writers, timers, stale callbacks and reads: until a failure or `Close`, bytes read by the peer, then unread in flight, then queued are exactly the accepted bytes in order |
| WSTheorems.Batching | internal/transport/wsconn.go:126-146 | for all limits in any order relation and in every reachable state: what was handed in is a contiguous regrouping of whole payloads, no group empty, each at most `maxQueue` bytes or a single payload, and then the queue, below `upPack` and within `maxQueue`; the wire has the groups as the ledger says, until a failure or `Close` each as one whole message |
| WSTheorems.NoStrandedBytes | internal/transport/wsconn.go:143-156 | in every reachable state bytes are queued iff a timer is set, and that timer still has its callback to run |
| WSTheorems.TimerDrains | internal/transport/wsconn.go:151-155 | from any such state that timer's own expiry and callback, and no other step, put everything accepted on the wire, whatever stale callbacks are about |
| WSTheorems.GapFreeIffNoLateDirect | internal/transport/wsconn.go:115-233 | over all runs with failures and closes: nothing reaches the wire behind lost bytes iff no payload above `maxQueue` is written directly after queued bytes were dropped by `Close` |
| WSTheorems.GapIffDropThenLarge | internal/transport/wsconn.go:115-233 | over all runs without failures: something reaches the wire behind lost bytes iff a flush after `closed` dropped what was queued and a late payload above `maxQueue` came after it |
| WSTheorems.PrefixSafety | internal/transport/wsconn.go:115-233 | without that one step, what the peer has read and can still read is a prefix of the bytes handed to `Write` |
| WSTheorems.SmallWritesAreSafe | internal/transport/wsconn.go:126-136 | payloads up to `maxQueue` never take that step, in any interleaving |
| WSTheorems.AtomicCallsAreSafe | internal/transport/wsconn.go:222-233 | nor does any run in which `Close` overlaps no `Write` |
| WSTheorems.CloseLosesTheQueue | internal/transport/wsconn.go:196-233 | a `Close` that overlaps no `Write` loses exactly the pending queue, less than `upPack` bytes, whatever timers and flushes still run |
| WSTheorems.LateDirectHappens | internal/transport/wsconn.go:115-136 | a concrete run in which 7 and then 8, 9 are accepted, nothing fails and the peer can read only 8, 9 |
| WSTheorems.NothingAfterSocketClose | internal/transport/wsconn.go:222-242 | once `Close` has closed the socket nothing reaches the wire, whatever writers and timers are still about |
| WSReports.AcceptedIsKept | internal/transport/wsconn.go:115-220 | over all runs, with failures and closes: the payloads whose `Write` reported success are exactly those handed in, less the ones that were last in a message which their own `Write` saw fail or dropped; so each is queued, went out in a whole message, or was lost from the queue by a later flush |
| WSReports.WriteIsTruthful | internal/transport/wsconn.go:126-157 | success, with the full count, iff the payload ends the queue or a whole message just sent; after an error it ends a message cut off or dropped and nothing is queued |
| WSReports.WriteBehaves | internal/transport/wsconn.go:126-178 | on an open connection, in fields: below both limits nothing goes out and a fresh timer is the only one; from `upPack` on one message with the queue; over `maxQueue` the queue first and a large payload behind it; the count, error and dead error of every failure |
| WSRun.Reachable | internal/transport/wsconn.go:115-242 | every state of every run keeps the queue bounds, the timer invariant, the payload-by-payload ledger of what was sent, cut off or dropped, and the delivery equation |
| WSSpec.WriteLockedKeeps | internal/transport/wsconn.go:123-157 | one locked write, with any socket failure, keeps all of that |
| WSSpec.FlushInv | internal/transport/wsconn.go:181-220 | so does a flush, and it leaves the queue empty |
| WSNetConns.WSNetConn.constructor | internal/transport/wsconn.go:35-52 | the defaults for non-positive limits, and an empty valid connection |
| WSNetConns.WSNetConn.SignalDead | internal/transport/wsconn.go:54-68 | the first error stays, and the channel is closed at most once |
| WSNetConns.WSNetConn.FlushLocked | internal/transport/wsconn.go:181-220 | one message holding the queued bytes in order, or their loss after `closed`; queue and timer cleared on every path |
| WSNetConns.WSNetConn.WriteDirect | internal/transport/wsconn.go:160-179 | one message with the payload, past the queue; the count and error each failing stage reports |
| WSNetConns.WSNetConn.WriteUnderLock | internal/transport/wsconn.go:126-157 | refines the locked write on values, for every socket outcome |
| WSNetConns.WSNetConn.Write | internal/transport/wsconn.go:115-158 | the whole call refines its value form and keeps the invariant; refused after `closed`; otherwise the two laws above, `WriteIsTruthful` and `WriteBehaves`, on its fields |
| WSNetConns.WSNetConn.OnTimer | internal/transport/wsconn.go:151-155 | a callback, current or stale, sends what is queued as one message, or records its error dead; nothing without a queue or after `closed` |
| WSNetConns.WSNetConn.Close | internal/transport/wsconn.go:222-242 | closing puts nothing on the wire, empties the queue, closes the socket; the dead error is an earlier one, or that bytes were dropped, or the socket's, or EOF; the second call changes nothing |
| WSNetConns.WSNetConn.Read | internal/transport/wsconn.go:82-113 | what goes into the caller's buffer is exactly what the stream loses, and the call is made of the reader steps of the run model; with room in the buffer it returns at least one byte of the current or next filled message; it fails only at a cut-off message or with the websocket's error and nothing unread, and waits only when nothing is unread |
| WSNetConns.WSNetConn.PullNext | internal/transport/wsconn.go:88-112 | the read loop terminates over any mix of text, ping and empty messages without losing a byte |
| Bytes.CopyChunks | internal/transport/wsconn.go:189-195 | the offset loop fills the buffer with the chunks one behind the other |
| DeadSignal.WriteOnceDeath | internal/transport/wsconn.go:54-68 | with any number of concurrent callers: closed at most once, an error stored before that and never replaced |
| DeadSignal.NoFallback | cmd/client/main.go:158-164 | whoever has seen the dead channel closed reads a non-nil error that does not change any more |
| DialRace.Ownership | internal/relay/dial.go:35-79 | when the race returns, the winner is the only open connection, every other established one was closed exactly once, and it fails iff no dial succeeded |
| DialRace.FirstSentWins | internal/relay/dial.go:63-79 | over all runs: the winner is the first connection sent, it never changes, the cancellation follows it and nothing else, and the race returns without a winner iff nothing was sent |
| DialRace.SendNeverBlocks | internal/relay/dial.go:53-57 | a goroutine with a connection always finds the channel open and with room |
| DialRace.NeverStuck | internal/relay/dial.go:44-74 | until the race returns some step is possible |
| DialRace.RunsAreShort | internal/relay/dial.go:41-74 | no run has more than 6 * concur + 2 steps, so every race returns |
| DialRace.RunInv | internal/relay/dial.go:38-74 | each established connection is always in exactly one place: a goroutine, the channel, the loop, the winner, or closed once |
| IPStrategy.FilterIPv4 | internal/relay/dial.go:135-143 | the IPv4 addresses in their order |
| IPStrategy.FilterIPv6 | internal/relay/dial.go:145-153 | the others in their order |
| IPStrategy.ResolveIPsForDial | internal/relay/dial.go:82-133 | prefer: the same multiset, preferred family first, each family in resolved order; only: exactly that family; a literal is filtered likewise |
| IPStrategy.OrderUnique | internal/relay/dial.go:111-132 | those conditions determine the list |
| IPStrategy.AttemptsBalanced | internal/relay/dial.go:41-42 | attempts per address differ by at most one, and the first min(concur, len) addresses are all tried |
| DnAggTheorems.ExactAccounting | internal/transport/dnagg.go:57-245 | over all runs within `maxQueue`: accepted = S1 D1 S2 D2 ... followed by the queue, each snapshot reaches the stream at most once, an exited flusher leaves the queue empty, and after one failed stream write the aggregator is closed and accepts nothing |
| DnAggTheorems.CompleteIffNoOverlap | internal/transport/dnagg.go:209-245 | without stream failures, after the exit the stream has all accepted chunks iff none was accepted while a snapshot was out |
| DnAggTheorems.OverlapLoses | internal/transport/dnagg.go:209-245 | for every configuration with `dnPack` below `maxQueue`, a run without failures that loses an accepted chunk this way |
| DnAggTheorems.TurnFlushesOnlyAtLimits | internal/transport/dnagg.go:113-145 | a turn of the loop flushes iff `dnPack` bytes or `dnQr` chunks are queued or less than `dnTail` bytes are missing from a pack; otherwise it waits for a chunk or the timer, or exits |
| DnAggTheorems.TimerFlushesOnlyAtLimits | internal/transport/dnagg.go:140-189 | the retry counter is 0 whenever the timer fires, so the timer flushes iff closed, or `dnPack` bytes or `dnQr` chunks are queued, or at least 4096 and twelve times `dnTail` bytes |
| DnAggTheorems.TrickleIsHeld | internal/transport/dnagg.go:140-189 | below all limits nothing is flushed by time, however long a run |
| DnAggTheorems.SleepsOnlyBelowLimits | internal/transport/dnagg.go:84-88 | a flusher asleep with no signal coming holds less than `dnPack` bytes in fewer than `dnQr` chunks |
| DnAggTheorems.CloseReturnsIff | internal/transport/dnagg.go:92-118 | when a run in which `Close` waits has come to a standstill, the flusher has exited iff the signal of `Close` was not sent between the flusher's test and its wait, or a writer's signal woke it later |
| DnAggTheorems.ClosedRunsAreShort | internal/transport/dnagg.go:92-245 | once `closed` is set every run comes to a standstill, within a number of steps fixed by the state |
| DnAggTheorems.CloseCanHang | internal/transport/dnagg.go:92-117 | for every configuration a run in which `Close` waits for ever |
| DnAggregators.DnAggregator.constructor | internal/transport/dnagg.go:29-55 | the defaults for non-positive limits, and an empty valid aggregator |
| DnAggregators.DnAggregator.Write | internal/transport/dnagg.go:57-90 | refines the value step in every flusher position and keeps the invariant; the chunk joins the queue and signals iff a limit is reached; refused once closed |
| DnAggregators.DnAggregator.FlusherTop | internal/transport/dnagg.go:113-145 | refines one turn of the loop up to its select |
| DnAggregators.DnAggregator.FlusherTimer | internal/transport/dnagg.go:148-189 | refines the timer case |
| DnAggregators.DnAggregator.FlusherStop | internal/transport/dnagg.go:190-204 | refines the stop case |
| DnAggregators.DnAggregator.WriteBatch | internal/transport/dnagg.go:218-232 | the stream grows by exactly the snapshot's bytes, the queue stays |
| DnAggregators.DnAggregator.ClearQueue | internal/transport/dnagg.go:233-244 | the whole queue goes, with what came since the snapshot, whatever the stream said; a failed write closes the aggregator |
| DnAggregators.FailingFlush | internal/transport/dnagg.go:218-245 | after a flush whose stream write failed the next `Write` gets the closed-pipe error |
| DnAggregators.Gather | internal/transport/dnagg.go:222-231 | sizing and filling the batch buffer |
| DnsMessage.ExtractionCorrect | internal/transport/ech.go:137-206 | for every well-formed response with one question whose owner names, up to the record to be returned, are written out or a bare pointer: the first key-5 value of the first HTTPS record that has one, an error iff there is none |
| DnsMessage.ShortResponseIff | internal/transport/ech.go:168-206 | for every well-formed response with fewer than 206 bytes behind its question: the answers are read up to the first owner name of labels and a pointer, so the result is right iff that name stands behind the record to be returned or there is none |
| DnsMessage.PointedAtIsMissed | internal/transport/ech.go:172-186 | a well-formed 43-byte response whose value is not found |
| DnsMessage.OwnerNameIff | internal/transport/ech.go:172-186 | the owner walk ends behind the name iff the name is written out or a bare pointer |
| DnsMessage.QuestionMatchesQueryIff | internal/transport/ech.go:125-167 | on a response that repeats our question the walk stops at the first answer byte iff every label has 1 to 191 bytes |
| DnsMessage.QueryIsMessage | internal/transport/ech.go:125-135 | the query is a message of the grammar with one question: the domain's labels, the type asked for, class 1, recursion desired |
| DnsMessage.QueryBytes | internal/transport/ech.go:125-135 | one query byte for byte |
| DnsMessage.AnsweredIsFound | internal/transport/ech.go:137-235 | one response byte for byte, with type 65 and key 5, and its value |
| DnsMessage.HttpsRecord | internal/transport/ech.go:208-235 | on well-formed record data: the first key-5 value |
| DnsMessage.QuestionName | internal/transport/ech.go:145-163 | the question walk handles labels, pointers and labels with a pointer |
| EchParser.FoundIsSlice | internal/transport/ech.go:137-206 | on every byte string a list that is found is a piece of the response, and an answer was announced |
| EchParser.TruncationIsSafe | internal/transport/ech.go:137-206 | on every byte string: cutting a response off never makes the parser find another value, only the same or none |
| EchParser.Complaints | internal/transport/ech.go:137-180 | the error for a response that is too short, has no answers, ends in its question, or has a pointer that is cut off or leads out of it |
| EchParser.ParseDNSResponse | internal/transport/ech.go:137-206 | total on all bytes: the loops advance, stay in range and compute the recursive walk |
| EchParser.ParseHTTPSRecord | internal/transport/ech.go:208-235 | likewise |
| EchParser.WalkQuestion | internal/transport/ech.go:145-163 | likewise for the question's name |
| EchParser.WalkOwner | internal/transport/ech.go:172-186 | likewise for an owner name |
| EchParser.BuildDNSQuery | internal/transport/ech.go:125-135 | header, length-prefixed labels, root, type and class |
| EchParser.SplitJoin | internal/transport/ech.go:128-128 | the labels contain no dot and joined by dots give the domain |
| Codec.HeaderRoundTrip | internal/protocol/stream.go:12-30 | kind, strategy and target come back and the rest of the stream is untouched |
| Codec.WireBytes | internal/protocol/stream.go:12-72 | header, chunk, reply and addressed chunk byte for byte |
| Codec.SessionRoundTrip | internal/relay/tcp.go:160-175 | however much of a session has arrived, the header comes back whole or not at all and the relayed chunks are a prefix of the nonempty ones, with all of it all of them |
| Codec.ChunksArrive | internal/relay/tcp.go:202-214 | no chunk is ever cut, merged or reordered by truncation |
| Codec.RepliesArrive | cmd/client/main.go:377-397 | the same for addressed replies |
| Codec.ReplyRoundTripIff | internal/relay/tcp.go:217-238 | a reply comes back, with the stream in step, iff its payload is below 65536 bytes |
| Codec.UDPChunkRoundTrip | internal/protocol/stream.go:60-93 | address and data come back, for lengths up to 65535 |
| Tunnel.ReadFull | internal/relay/tcp.go:202-214 | through any short reads: exactly the next bytes, or an error with nothing left |
| Tunnel.WriteSmuxOpenHeader | cmd/client/main.go:306-322 | the header's bytes, or nothing and an error above 65535; on a stream that fails, what it still took and an error |
| Tunnel.ReadSmuxOpenHeader | internal/protocol/stream.go:12-30 | decodes and consumes exactly one header |
| Tunnel.WriteChunk | cmd/client/main.go:324-338 | one chunk's bytes, or nothing and an error from 65536 on; a failing stream as above |
| Tunnel.ReadChunk | internal/relay/tcp.go:202-214 | decodes and consumes exactly one chunk |
| Tunnel.WriteUDPReply | internal/relay/tcp.go:217-238 | one reply's bytes, only the address is checked; a failing stream as above |
| Tunnel.ReadUDPReply | cmd/client/main.go:377-397 | decodes and consumes exactly one reply |
| Tunnel.WriteUDPChunk | internal/protocol/stream.go:60-72 | one addressed chunk's bytes; a failing stream as above |
| Tunnel.ReadUDPChunk | internal/protocol/stream.go:74-93 | decodes and consumes exactly one addressed chunk |
| Tunnel.RelayChunks | internal/relay/tcp.go:161-175 | relays the nonempty chunks of the stream in order until it ends or a datagram fails |
| Tunnel.SendReplies | internal/relay/tcp.go:181-198 | the encodings of the replies in order, until one cannot be written or the stream fails |
| Tunnel.CollectReplies | cmd/client/main.go:944-953 | hands on the stream's replies in order until it ends |
| Tunnel.HandleSmuxStream | internal/relay/tcp.go:19-41 | the dispatch on the kind, with a target that does not resolve, failing datagrams and the replies; a ping echoes exactly its eight bytes |
| Tunnel.SendSession | cmd/client/main.go:306-338 | header and chunks in order, cut off where the stream fails |
| Tunnel.UDPSession | cmd/client/main.go:916-960 | a session written by the client's code over a stream that may fail at any byte and read by the server's through any short reads: the client's target, a prefix of the nonempty chunks, for the client a prefix of the replies; without failures all of them |
| Tunnel.ProbeChannel | cmd/client/main.go:206-230 | the RTT probe against the server, over failing streams and short reads: the ping's bytes on the wire, and it succeeds iff both streams take what they are given |
| TcpPipe.OrderKept | internal/relay/tcp.go:47-141 | in every interleaving the target gets a prefix of what was read, including what was buffered before the dial finished |
| TcpPipe.DrainedIsComplete | internal/relay/tcp.go:129-134 | leaving the loop on a drained channel without cancellation: the target has everything iff no Read returned data along with its error |
| TcpPipe.ErrorsNeverBlock | internal/relay/tcp.go:56-91 | no goroutine waits for the error channel or the dial channel |
| TcpPipe.ReaderIsReleased | internal/relay/tcp.go:66-70 | a reader waiting for the data channel can send, quit, or be served by the loop |
| TcpPipe.EndedIff | internal/relay/tcp.go:93-141 | over all runs: the relay has ended iff its loop met an error, a timeout, a failing write, the end of the data or the cancellation; cancelled iff ended or the copier stopped; started iff a connection came; nothing is written after the end |
| TcpPipe.ErrorEnds | internal/relay/tcp.go:56-103 | a failed dial or read ends a waiting relay in two steps, with nothing written |
| TcpPipe.ConnectionStarts | internal/relay/tcp.go:86-96 | a connection starts a waiting relay in two steps |
| TcpPipe.CopierEndStops | internal/relay/tcp.go:111-140 | when the copier has stopped the loop can end after at most the chunk it holds |
| UdpAssoc.RunKeeps | cmd/client/main.go:916-1012 | over all runs: closed never reverts, a started live association has its stream, every sender leaves the lock with the one stream opened, at most one is opened and it is closed at most once |
| UdpAssoc.SettledExactlyOnce | cmd/client/main.go:990-1012 | once closed and settled: the stream opened is the one closed, with one open and one close event on its own channel; without a stream there are none |
| UdpAssoc.UDPAssociation.SendLocked | cmd/client/main.go:916-960 | refines the value step; a stream is carried out iff the association is alive, with the latest target; the first send opens it and logs it, or closes the association |
| UdpAssoc.UDPAssociation.CloseLocked | cmd/client/main.go:990-1001 | only the first call carries anything out |
| UdpAssoc.UDPAssociation.FinishClose | cmd/client/main.go:1002-1007 | the carried stream is closed and logged once |
| BestStream.OpenBestStream | cmd/client/main.go:232-281 | picks a live channel within 10 ms of every live one by the counter's turn; no channel iff none is alive; the near set is never empty; in measured times: no live channel is more than 10 ms faster, an unmeasured one counting as the dial timeout; a stream is opened iff the channel is still alive at the second look and gives one |
| BestStream.PickAny | cmd/client/main.go:259-267 | and every channel of which that is true is picked at some counter value |
| BestStream.FairTurns | cmd/client/main.go:266-267 | any len(near) consecutive counter values below 2^63 pick each member exactly once |
| BestStream.IndexInRangeIff | cmd/client/main.go:266-266 | the signed index is in range iff the counter is below 2^63 or short of 2^64 by a multiple of the set's size |
| Socks5Udp.ParseSOCKS5UDPPacket | cmd/client/main.go:1014-1057 | never out of range; succeeds exactly on well-formed unfragmented datagrams of at least ten bytes, with their fields |
| Socks5Udp.BuildSOCKS5UDPPacket | cmd/client/main.go:1059-1078 | the datagram for the host; an error iff a name has more than 255 bytes |
| Socks5Udp.WireBytes | cmd/client/main.go:1059-1078 | the three address types byte for byte |
| Socks5Udp.BuildThenParse | cmd/client/main.go:1014-1078 | host, port and data come back iff the port has 16 bits and name and data together at least three bytes |

## Left out

- Sockets, websocket, smux and TLS, HTTP and DNS transport: libraries; a smux stream is an ordered byte stream with short reads, the websocket an ordered list of messages whose write failures are permanent.
- Time: a timer fires at any moment, deadlines and sleeps are not modelled, so no latency bound is stated.
- DnAggregators.DnAggregator.Write: covers chunks that fit under `maxQueue`, because the overflow branch calls a `flushLocked` that the type does not have.
- The two goroutines' memory: chunks and snapshots are copied by the code and are values here, so aliasing of a reused read buffer is not modelled.
- Tunnel.HandleSmuxStream: shows the two directions of a UDP stream one behind the other; they share only their end, whose timing is the given list of replies.
- `protocol.WriteUDPReply`: writes no data length and has no matching reader.
- EchParser.ParseDNSResponse: like the code, does not look at the question count; `DnsMessage.ExtractionCorrect` is about responses with one question.
- Socks5Udp.ParseSOCKS5UDPPacket: gives the host as parsed address or name, not as text; the conversions of package net are taken to be inverse.
- Ownership of the target connection in the timeout and early-error paths of `handleTCPStream`.
- `DialTCPWithStrategy`, the session's channel table, handshake bytes, configuration defaults, UUIDs, logging, the HTTP proxy and SOCKS5 negotiation: plumbing.
