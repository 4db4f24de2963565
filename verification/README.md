# SSH-VPN: a verified model of its core

SSH-VPN (sshfortress) turns an OpenSSH server into a VPN front door. This project models its four
cores and the firewall compiler in Dafny and proves what they promise.

- **UDP gateway** (`UdpgwProto`, `UdpgwFlows`, `UdpgwServer`, `UdpgwReplies`). The badvpn-udpgw
  protocol: the codec; a state machine with one step per locked section in which accept loops,
  readers, flow readers, the reaper, evictions and closes interleave freely; the server object whose
  methods are proved to be those steps; and the way back, where flow readers, a bounded queue and a
  writer share recycled buffers whose contents live in a common heap.
- **Gateway** (`GatewaySniff`, `GatewayStreams`, `GatewayHeaders`, `WsFrames`, `GatewayWs`,
  `GatewayConn`). Protocol sniffing, HTTP header blocks, WebSocket framing (sections 5.2, 5.3 and 5.5
  of RFC 6455) and the connection state machine. A client is one stream of bytes; the network decides
  how much of it each look or read shows and which calls fail.
- **sshd configuration** (`SshdText`, `SshdApply`). Managed blocks, commented-out Port lines, and the
  three-level try, validate and roll back loop over two files.
- **Accounts** (`Accounts`, `Sessions`, `DaemonTick`). The lock state machine, the ordering and
  limiting of sessions, and one daemon pass: byte counters turned into charges that survive
  restarts, then enforcement.
- **Firewall** (`Firewall`). The rule chain against the plain policy.

Three shapes recur. A pure decision is a function with lemmas about it. A loop or an object whose
fields change is a method proved against a function of the old state. Concurrency is a set of
atomic actions with an invariant that every action keeps and theorems over every finite run. Calls
into the outside world (sockets, the validator, the database, `sshd`) are nondeterministic choices
or parameters. At the gateway and on the sshd files every such call that fails, and every wait that
ends in silence, is put on record by the call itself, and contracts blame a failure or a silence only
if one is on record; without any, the outcome is exact.

Promises the code does not keep in general come with the exact condition under which it does:

- The cap on clients holds exactly with at most one accept loop (`UdpgwFlows.CapHoldsIffOneLoop`):
  two loops can pick the same client to evict.
- Where a header block ends depends on the network's timing exactly for streams that hold a bare
  blank line before the first CR LF CR LF (`GatewayHeaders.IndependentIffUnambiguous`).
- Applying and then removing the sshd configuration gives the original back exactly if no line of it
  carried the port comment and, when an Apply worked inline, it was empty or ended in a newline
  (`SshdApply.RemoveRestoresExactly`).
- The early returns of Apply (internal/sshd/sshd.go:252-257) skip the rollback; from the second level
  on the files are as before exactly if, in a main file without markers, no Port line was active and
  the drop-in already held the refused text (`SshdApply.EarlyReturnRestores`).
- Over TLS nothing is looked at after the fourth answered request, so four requests followed by an SSH
  client end in a closed connection, while the same stream in plain HTTP reaches sshd
  (`GatewayConn.FourRequestsThenSSH`).
- A session is charged its last counter less where its charging began, plus what it pays twice, less
  what it never pays, whatever scans miss and however counters move (`DaemonTick.ChargedInGeneral`).
  Unless it returns in the first pass after a restart, that is exact if and only if no scan missed it
  after a sighting with something on its counter and its counter never fell, as it does to zero while
  it cannot be read (`DaemonTick.ExactIffNoneSlipped`, `DaemonTick.SlipExample`).
- Unlock frees an account locked for expiry only after its expiry was set to "never", and one locked
  for its quota exactly when it has not expired and its usage on record is below the limit
  (`Accounts.UnlockLifts`). Such a quota lock was set by a pass that could not save its traffic
  (`Accounts.UntrueLockWasUnsaved`, `Accounts.UntrueQuotaLock`).

One disagreement between code and comments: `Unlock` is described as re-enabling "a manually locked
account" (internal/user/manager.go:322), but the code frees any account that is unexpired and under
quota, whatever the reason on record; the model follows the code.

## Model

| member | source | states |
|---|---|---|
| UdpgwProto.AppendFrame | internal/udpgw/proto.go:96-122 | appends exactly the length-prefixed payload when it fits in 65535 bytes, and reports "too large" and appends nothing otherwise |
| UdpgwProto.FrameLenExact | internal/udpgw/proto.go:85-92 | FrameLen is the number of bytes AppendFrame appends |
| UdpgwProto.FlagBits | internal/udpgw/proto.go:24-29 | keepalive, rebind, DNS and IPv6 are the bits of value 1, 2, 4 and 8, taken by division |
| UdpgwProto.WireLayout | internal/udpgw/proto.go:8-14 | a frame byte by byte: length and id low byte first, the IPv6 bit told by the address, the address, the port high byte first, the data |
| UdpgwProto.ParseOfPayload | internal/udpgw/proto.go:52-122 | parsing an encoded payload gives the flags (IPv6 set from the address), id, address and data back |
| UdpgwProto.PayloadOfParse | internal/udpgw/proto.go:52-122 | encoding a parsed non-keepalive payload gives the same bytes back, so the codec is a bijection |
| UdpgwProto.MalformedIffShort | internal/udpgw/proto.go:53-83 | a payload is refused exactly if it is too short for its flags, 3 bytes for a keepalive and 9 or 21 otherwise, and one with the lowest bit set is a keepalive |
| UdpgwProto.ReadClient | internal/udpgw/server.go:388-412 | the reader loop hands on exactly the well-formed non-keepalive packets of the complete frames, in order |
| UdpgwProto.DeframeFrameAll | internal/udpgw/server.go:393-400 | framing is undone by the length-prefix loop, whatever incomplete tail follows |
| UdpgwProto.DeframeConserves | internal/udpgw/server.go:393-400 | the frames read and the unread tail are the stream, byte for byte |
| UdpgwProto.NoDesync | internal/udpgw/server.go:402-406 | a malformed payload is skipped and the frames around it are read as if it were not there |
| UdpgwProto.HandledOfDatagrams | internal/udpgw/server.go:393-410 | framed datagrams come out of the reader loop as they went in |
| UdpgwFlows.StepKeepsInv | internal/udpgw/server.go:238-464 | every step of every goroutine keeps the invariant over tables, flows, pending closes and the counter |
| UdpgwFlows.RunsAreSafe | internal/udpgw/server.go:349-464 | in every interleaving: counter = table entries + flows removed but not yet closed; tables bounded, keyed by conid, holding only open flows; closed clients hold none; each flow is counted down exactly once, when it is closed |
| UdpgwFlows.CounterCounts | internal/udpgw/server.go:365-370 | the flow counter is the number of flows in tables plus those removed and not yet closed |
| UdpgwFlows.TableFlows | internal/udpgw/server.go:330-332 | distinct table entries of a client are distinct flows |
| UdpgwFlows.RunIsLater | internal/udpgw/server.go:338-370 | a flow keeps its client, id, address and target and a client its start time for ever, and closing is one-way over any run |
| UdpgwFlows.LastUseIsTrue | internal/udpgw/server.go:466 | over every run a flow's last use is the time of the last action that used it, or of the packet that opened it when none did |
| UdpgwFlows.HandleEvicts | internal/udpgw/server.go:414-464 | a packet evicts at most one other flow, only when the table holds exactly MaxFlows, and a least recently used one; a packet for a known id, rebinding or changing address included, evicts nobody else |
| UdpgwFlows.ReapMeans | internal/udpgw/server.go:372-386 | reaping takes exactly the flows last used before the cutoff out of the table, each with one closeFlow call to come, and leaves every other entry |
| UdpgwFlows.QuietMeansZero | internal/udpgw/server.go:173-194 | after Server.Close, when the closing goroutines are done the counter is zero and every flow closed |
| UdpgwFlows.ClosingProgress | internal/udpgw/server.go:349-370 | while closing is not finished, some closing goroutine can take a step |
| UdpgwFlows.ClosingShrinks | internal/udpgw/server.go:349-370 | every such step leaves strictly less to do |
| UdpgwFlows.Drains | internal/udpgw/server.go:173-194 | from every state after Server.Close the closing goroutines can bring the counter to zero in finitely many steps, all of them their own |
| UdpgwFlows.ClosedOnlyShrinks | internal/udpgw/server.go:173-194 | after Server.Close no step of any goroutine adds a client that is still to be closed |
| UdpgwFlows.ClosingIsBounded | internal/udpgw/server.go:349-363 | along every interleaving after Server.Close the steps that close clients are bounded by the clients left to close |
| UdpgwFlows.DrainsFromAnywhere | internal/udpgw/server.go:173-194 | wherever an interleaving after Server.Close leads, clients that still send packets included, closing steps alone can bring the counter to zero from there |
| UdpgwFlows.ClosedForGood | internal/udpgw/server.go:262-266 | once the server and its clients are closed, no step opens a flow or raises the counter |
| UdpgwFlows.OneLoopCap | internal/udpgw/server.go:260-279 | with at most one accept loop, never more than MaxClients are listed while no eviction is pending |
| UdpgwFlows.TwoLoopsOverflow | internal/udpgw/server.go:261-279 | from any full registry two accept loops can choose the same victim and exceed MaxClients |
| UdpgwFlows.CapHoldsIffOneLoop | internal/udpgw/server.go:260-279 | the cap holds over all runs exactly with at most one accept loop |
| UdpgwServer.GatewayServer.constructor | internal/udpgw/server.go:108-112 | a new server is the initial state |
| UdpgwServer.GatewayServer.FindOldest | internal/udpgw/server.go:268-272 | the map loop finds a client no other listed client is older than, in any iteration order |
| UdpgwServer.GatewayServer.StartClient | internal/udpgw/server.go:238-283 | the object does exactly the accept step |
| UdpgwServer.GatewayServer.FindLRU | internal/udpgw/server.go:428-433 | the map loop finds a flow of the table with least last use, in any iteration order |
| UdpgwServer.GatewayServer.MakeRoom | internal/udpgw/server.go:420-438 | dropping the packet's own flow and then, if still full, the least recently used one |
| UdpgwServer.GatewayServer.Handle | internal/udpgw/server.go:414-471 | the object does exactly the handle step; the datagram goes out of the client's own open flow under its id and address, which is the one in the table unless the bit of value 2 is set or the address differs, and else a new one; a new flow's target is the resolver exactly if the bit of value 4 is set and there is a resolver, else the packet's address, unmapped |
| UdpgwServer.TargetMeans | internal/udpgw/server.go:439-445 | the resolver's address is the target exactly if the DNS bit, as a number, is set and there is a resolver; otherwise it is the packet's |
| UdpgwServer.UnmapMeans | internal/udpgw/server.go:445 | an IPv4-mapped IPv6 address becomes the IPv4 address of its last four bytes with the same port, every other address is unchanged, and no target is a mapped one |
| UdpgwServer.GatewayServer.FindStale | internal/udpgw/server.go:376-381 | the loop finds exactly the flows last used before the cutoff |
| UdpgwServer.GatewayServer.Reap | internal/udpgw/server.go:372-386 | the object does exactly the reap step |
| UdpgwServer.GatewayServer.BeginClose | internal/udpgw/server.go:349-352 | only the first close of a client proceeds |
| UdpgwServer.GatewayServer.SwapTable | internal/udpgw/server.go:353-357 | the table is emptied and its flows handed to closeFlow |
| UdpgwServer.GatewayServer.ReaderFailed | internal/udpgw/server.go:485-494 | a failed flow reader removes its own entry only, if it is still there |
| UdpgwServer.GatewayServer.Claim | internal/udpgw/server.go:366 | compare-and-swap: exactly one closer wins |
| UdpgwServer.GatewayServer.Finish | internal/udpgw/server.go:367-368 | the winner closes the socket and counts down once |
| UdpgwServer.GatewayServer.Shutdown | internal/udpgw/server.go:174-187 | Server.Close marks the server closed and dooms every listed client |
| UdpgwReplies.StepInv | internal/udpgw/server.go:476-563 | every step of pool, flow readers, queues and writers keeps single ownership and the stream invariant |
| UdpgwReplies.RepliesAreFaithful | internal/udpgw/server.go:481-563 | in every run, what a client decodes from its tunnel is the first datagrams of its log, per flow an in-order selection of those that flow received (which one, NothingVanishes says), none doubled or invented, labelled with its id and original address; whenever the writer is at its outer select, everything dequeued has been flushed |
| UdpgwReplies.NothingVanishes | internal/udpgw/server.go:481-522 | over every run, what a flow received is, in order, what each datagram came to and then what its reader has in hand: queued, which is exactly its share of the log; dropped, only at a moment when the queue held exactly queueLen frames; too large, exactly if it fits no frame; or abandoned, at most the last, by a reader that has ended |
| UdpgwReplies.ReadyIsDelivered | internal/udpgw/server.go:510-563 | from every reachable state with a ready datagram, room in the queue and a writer that has not stopped, queueing it and then the writer's own steps lead to a tunnel whose decoding is one packet longer than the log was and ends with that datagram under its flow's id and address |
| UdpgwReplies.ReceivedIsReady | internal/udpgw/server.go:484-509 | a waiting reader can take any datagram that fits a frame through buffer and framing to the queue, disturbing no connection |
| UdpgwReplies.WriterDrains | internal/udpgw/server.go:533-563 | from every state that keeps the invariant a writer that has not stopped empties its queue and flushes by its own steps |
| UdpgwReplies.ClosedClientsEnd | internal/udpgw/server.go:510-540 | once a client is closed, whatever follows, a reader with a frame in hand can end instead of waiting or dropping, and so can a writer at its outer select |
| UdpgwReplies.SentIsPrefix | internal/udpgw/server.go:533-563 | the tunnel holds a prefix of whole frames of what the writer took, and all of it at the outer select |
| UdpgwReplies.FillsInPlace | internal/udpgw/server.go:497-509 | the buffer chosen by FrameLen always has room, so AppendFrame never reallocates a pooled buffer |
| UdpgwReplies.LabelsStay | internal/udpgw/server.go:338-345 | over every run of the flow lifecycle a flow keeps the client, id and address its replies are labelled with |
| UdpgwReplies.BuffersAreOwned | internal/udpgw/server.go:476-529 | at every step of every run a buffer has at most one holder among pool, readers, queues and writers, only 2048-byte buffers are pooled, and a held buffer changes only when its own reader fills it |
| UdpgwReplies.HandedBack | internal/udpgw/server.go:510-529 | a dropped frame's and a written frame's buffer goes back to the pool exactly if it has 2048 bytes; no other step puts anything there |
| GatewaySniff.ClassifyBytes | internal/gateway/sniff.go:32-71 | the decision loop over the method list computes the classification |
| GatewaySniff.AsksIffOpen | internal/gateway/sniff.go:30-71 | classify asks for more exactly when two continuations would be classified differently |
| GatewaySniff.DecidedStays | internal/gateway/sniff.go:30-71 | a decided answer is the same on every extension |
| GatewaySniff.TenDecide | internal/gateway/sniff.go:128-148 | ten bytes always decide, so the sixteen-byte window never cuts a decision short |
| GatewaySniff.PrefixVerdict | internal/gateway/sniff.go:128-148 | every prefix that decides gives the verdict of the whole stream |
| GatewaySniff.VerdictTable | internal/gateway/sniff.go:24-86 | what a stream is, byte by byte: 0x16; the four bytes of the SSH greeting; one of 22 methods and a space, spelled in bytes; a frame opcode without reserved bits and a mask bit; anything else is of no known protocol, unless it ends where it could still become one of these |
| GatewayStreams.PeekClassify | internal/gateway/sniff.go:128-148 | whatever each peek shows, a result is the verdict of the stream and nothing is consumed; a timeout needs a look in vain or a passed deadline, the end an empty stream, an error a failed call |
| GatewayStreams.ClassifyReader | internal/gateway/gateway.go:464-486 | the buffered variant gives the same verdict; a timeout has silence, a failed read or the end of an undecided stream behind it |
| GatewayHeaders.ReadHeaderExact | internal/gateway/sniff.go:222-245 | consumes exactly a block that some visible prefix ends at, and nothing after it; fails only for silence, a failed call, an empty stream, or a block without an end in 16384 bytes |
| GatewayHeaders.ExactConsumesBlock | internal/gateway/sniff.go:184-192 | the end is the first CR LF CR LF or the first LF LF; for a block of at most 16384 bytes with clean CR LF newlines it is the block's own end, whatever is visible and whatever follows |
| GatewayHeaders.EndsInBytes | internal/gateway/sniff.go:184-192 | the two ends are the first places where the bytes 13 10 13 10 and 10 10 stand |
| GatewayHeaders.IndependentIffUnambiguous | internal/gateway/sniff.go:184-245 | what is consumed is independent of segmentation exactly for streams without a bare blank line before the first CR LF CR LF |
| GatewayHeaders.AmbiguousExample | internal/gateway/sniff.go:184-192 | a concrete stream whose block end depends on segmentation |
| GatewayHeaders.CleanIsUnambiguous | internal/gateway/sniff.go:184-192 | clean CR LF newlines rule the ambiguity out |
| GatewayHeaders.EndlessStays | internal/gateway/sniff.go:235-241 | a block without an end in the window is consumed by no look |
| GatewayHeaders.ReadHeaderLine | internal/gateway/sniff.go:250-261 | one round of the line loop: the next line and what it means for the scan |
| GatewayHeaders.ReadHeaderBuffered | internal/gateway/sniff.go:248-263 | the line loop consumes exactly up to the first blank line after the first line; fails only for silence, a failed read, a stream that ends inside the block, or a block or line that is too long |
| GatewayHeaders.ScanMeans | internal/gateway/sniff.go:248-263 | in bytes: the block ends exactly at the first blank line after the stream's first line, a line that holds nothing but carriage returns before its newline, if that is within 16384 bytes |
| GatewayHeaders.CleanScan | internal/gateway/sniff.go:248-263 | for a clean block the line loop stops at the same byte as the peeking reader |
| WsFrames.UnmaskTwice | internal/gateway/ws.go:72-77 | masking is its own inverse (section 5.3 of RFC 6455) |
| Bytes.XorByteBits | internal/gateway/ws.go:72-77 | each of the eight bits of the XOR of two bytes, taken by division, is the sum modulo two of theirs |
| WsFrames.UnmaskBits | internal/gateway/ws.go:72-77 | bit by bit, byte j of the result is byte j of the input plus byte (pos + j) modulo four of the key; without the mask bit nothing changes |
| WsFrames.HeaderLayout | internal/gateway/ws.go:87-113 | the header of a frame byte by byte: opcode, mask bit and short length, the longer lengths most significant byte first, the key |
| WsFrames.PayloadLayout | internal/gateway/ws.go:68-77 | after the header each payload bit stands added to the key's, or plain |
| WsFrames.MaskedGreeting | internal/gateway/ws.go:61-81 | a written-out frame masked with the key 1 2 3 4 decodes to the bytes of the SSH greeting |
| WsFrames.UnmaskSplit | internal/gateway/ws.go:72-77 | unmasking in parts with a carried key position equals unmasking at once |
| WsFrames.DecodePart | internal/gateway/ws.go:68-80 | reading part of a payload leaves exactly the rest to be read |
| WsFrames.DecodeEncodedAll | internal/gateway/ws.go:84-140 | any sequence of well-formed frames decodes to its data payloads up to the first close frame, with one pong per ping in order and the close echoed, whatever length encodings, masks and control frames occur |
| WsFrames.CutHeader | internal/gateway/ws.go:87-113 | a stream that stops inside a header yields nothing and ends cleanly only where one of the reads would have begun |
| WsFrames.CutPayload | internal/gateway/ws.go:70-140 | a stream that stops inside a data payload yields what is there, unmasked; inside a control payload, nothing |
| WsFrames.LongControl | internal/gateway/ws.go:115-118 | a control frame that announces more than 125 bytes is refused, whatever follows |
| WsFrames.ServerFrameIsFrame | internal/gateway/ws.go:142-159 | what the server writes is a final, unmasked frame with the shortest length encoding |
| WsFrames.WrittenReadsBack | internal/gateway/ws.go:142-167 | any list of writes, across the 126 and 65536 boundaries, reads back as its concatenation |
| GatewayWs.FrameBytes | internal/gateway/ws.go:145-157 | the three length branches build the server frame |
| GatewayWs.WsConn.WriteFrame | internal/gateway/ws.go:142-159 | a frame goes out whole and is logged, or a failed call is on record and the connection is marked as failed |
| GatewayWs.WsConn.Write | internal/gateway/ws.go:162-167 | a write adds one binary frame and leaves what is still to be read and answered alone |
| GatewayWs.WsConn.ReadLength | internal/gateway/ws.go:93-107 | the extended length is read in the width the short length calls for, short input included |
| GatewayWs.WsConn.ReadHeader | internal/gateway/ws.go:87-113 | the header reads agree with the header parser, short input included |
| GatewayWs.WsConn.ReadPayload | internal/gateway/ws.go:119-127 | a control payload is read whole and unmasked, or the shortfall is reported |
| GatewayWs.WsConn.Answer | internal/gateway/ws.go:128-136 | a close is echoed and ends the connection, a ping gets one pong with its payload, anything else nothing |
| GatewayWs.WsConn.Control | internal/gateway/ws.go:115-136 | a control frame is read, unmasked, answered or refused |
| GatewayWs.WsConn.NextFrame | internal/gateway/ws.go:86-140 | one frame header leaves the data still to come and the answers still due as they were |
| GatewayWs.WsConn.UnmaskInPlace | internal/gateway/ws.go:72-77 | the in-place XOR loop unmasks the first n bytes and moves the key position by n |
| GatewayWs.WsConn.ReadPart | internal/gateway/ws.go:68-80 | inside a payload, the bytes delivered and those still to come are what was to come |
| GatewayWs.WsConn.Read | internal/gateway/ws.go:61-81 | for any buffer size and any short read: the bytes delivered followed by what is still to come are what was to come before; answers go out in order; at the end all data was delivered; after a close every read is EOF; it is lost only when a call failed |
| GatewayWs.Deliver | internal/gateway/gateway.go:528-534 | unless a call fails, copying to the end gives sshd exactly the decoded data of the stream |
| GatewayWs.OutReadsBack | internal/gateway/ws.go:142-167 | the bytes a connection put out decode to exactly the data written, up to the echo of a close |
| GatewayConn.NothingLost | internal/gateway/gateway.go:351-461 | the answered blocks followed by the rest are the client's stream |
| GatewayConn.HandlePlainHTTP | internal/gateway/gateway.go:351-391 | for every segmentation and timing: at most four blocks answered, one response each; sshd gets exactly the rest, de-framed if and only if it starts like a WebSocket frame; a connection is dropped only for a fifth request, a block that is too long, a stream that ended, silence inside a block, or a failed call, and silence and failures are on record |
| GatewayConn.AnswerExact | internal/gateway/gateway.go:354-367 | one block is taken off the raw stream and answered, or the reason it was not is on record |
| GatewayConn.AnswerBuffered | internal/gateway/gateway.go:429-448 | one block is taken off the decrypted stream and answered, or the reason it was not is on record |
| GatewayConn.HandleTLS | internal/gateway/gateway.go:406-461 | the same for the decrypted stream; the unknown counter rises by one exactly for a connection refused for its bytes before a fourth answer (which bytes, OverTLS says), and everything is dropped after a fourth answer |
| GatewayConn.Handle | internal/gateway/gateway.go:307-345 | a whole connection is served so; without a failed call and without silence its report is complete and its route the one its bytes decide; the handshake counter is given back exactly once on every path; exactly the connections of no known protocol count as unknown; without a failed call and without silence it is TLS exactly if it begins with 0x16, a stream of no known protocol, inside TLS or not, is refused unread with no byte to sshd and counted once, and an SSH client's stream reaches sshd whole |
| GatewayConn.Handshake.Finish | internal/gateway/gateway.go:309-315 | finishing twice counts once |
| GatewayConn.AnsweredPrefix | internal/gateway/gateway.go:353-391 | a run cut short by silence answered a prefix of what any other run answers |
| GatewayConn.NothingMore | internal/gateway/gateway.go:353-461 | where a run without silence and failed calls stops, no further block can be answered |
| GatewayConn.SameWhateverTheTiming | internal/gateway/gateway.go:351-461 | two runs without silence and failed calls agree on everything: blocks, responses, route, reason, and what sshd receives |
| GatewayConn.OverTLS | internal/gateway/gateway.go:414-461 | in bytes, for every run without silence and failed calls: before the fourth answer the rest goes to sshd raw exactly if it begins with the SSH greeting or ended undecided, through the decoder exactly if it begins with a masked frame, and is refused and counted exactly if it is of no known protocol or TLS again; after the fourth answer nothing passes |
| GatewayConn.InPlain | internal/gateway/gateway.go:330-391 | in bytes, likewise in plain: raw exactly for the SSH greeting or, after an answer, TLS or no known protocol; through the decoder exactly for a masked frame after an answer; refused before the first answer exactly for a frame or no known protocol, and later exactly for a fifth request |
| GatewayConn.FourRequestsThenSSH | internal/gateway/gateway.go:353-461 | after four requests an SSH client reaches sshd in plain HTTP and never over TLS, when no call fails and nobody falls silent |
| GatewayConn.CleanTakesSame | internal/gateway/sniff.go:222-263 | a clean block is taken off alike with and without TLS |
| SshdText.StripBlocks | internal/sshd/sshd.go:416-439 | the loops terminate on every input and compute the stripping function |
| SshdText.StripLeavesNone | internal/sshd/sshd.go:422-436 | no complete block of a kind survives its pass |
| SshdText.CommentTwice | internal/sshd/sshd.go:400-414 | commenting is idempotent and removing comments undoes it |
| SshdText.UncommentSame | internal/sshd/sshd.go:410-414 | removing comments changes nothing exactly when no line starts with the comment |
| SshdText.CommentSame | internal/sshd/sshd.go:400-408 | commenting changes nothing exactly when no line is an active Port line |
| SshdText.PortLineIff | internal/sshd/sshd.go:400 | an active Port line is exactly: any blanks, the word, at least one blank, at least one digit, any blanks |
| SshdText.NoneActive | internal/sshd/sshd.go:400-408 | after commenting no line is an active Port line |
| SshdText.CommentKeepsMarkers | internal/sshd/sshd.go:400-408 | commenting Port lines neither makes nor hides a marker |
| SshdText.StripWritten | internal/sshd/sshd.go:416-459 | stripping undoes writing the two blocks, up to the final newline |
| SshdApply.Disk.Apply | internal/sshd/sshd.go:226-281 | when no file operation fails: the lowest level the validator accepts is in place, or all three are refused and both files are as before (a missing drop-in missing again); when one fails: what an early return leaves, and what a rollback leaves, with a failed rollback write leaving what was there or a part of the original |
| SshdApply.EarlyReturnRestores | internal/sshd/sshd.go:252-257 | after an early return at a later level the files are as before exactly if no Port line was active and the drop-in already held that text (on a main file without markers) |
| SshdApply.EarlyReturnLoses | internal/sshd/sshd.go:252-257 | a first Apply never is such a case |
| SshdApply.Disk.RollBack | internal/sshd/sshd.go:232-241 | puts both files back, or says what a failed write leaves |
| SshdApply.Disk.Remove | internal/sshd/sshd.go:332-356 | the main file is restored, unless sshd, when there is one to ask, refuses the result or a file operation fails; then it is kept |
| SshdApply.RunRestores | internal/sshd/sshd.go:247-267 | after any run of Applies, drop-in or inline with any settings, what Remove would leave, exactly |
| SshdApply.RemoveRestoresExactly | internal/sshd/sshd.go:332-344 | the original returns byte for byte exactly if no line carried the port comment and, after an inline Apply, it was empty or ended in a newline |
| SshdApply.ApplyTwice | internal/sshd/sshd.go:247-264 | applying the same settings again is a fixpoint |
| SshdApply.HeaderFits | internal/sshd/sshd.go:181-187 | the fixed header never ends the global block early |
| SshdApply.DropInHolds | internal/sshd/sshd.go:251 | the drop-in is the header, the global lines, an empty line and the Match lines, in this order and nothing else |
| SshdApply.InlineHolds | internal/sshd/sshd.go:441-461 | inline, the marked global lines come first, then the text itself, then the marked Match lines |
| SshdApply.LineStands | internal/sshd/sshd.go:251 | every line asked for stands whole in its place |
| Accounts.Manager.Renew | internal/user/manager.go:224-244 | goes through exactly for positive days on an existing account when the database works; then only that record changes, counting from now if the expiry is past, and an expiry lock goes; otherwise nothing changes |
| Accounts.Manager.SetExpiry | internal/user/manager.go:247-259 | one record changes or nothing; an expiry lock goes exactly if the new time is ahead |
| Accounts.Manager.SetMaxConnections | internal/user/manager.go:262-268 | one record's limit changes, or nothing when the limit is below one |
| Accounts.Manager.SetTrafficLimit | internal/user/manager.go:271-286 | one record's limit changes, negative meaning none; a quota lock goes exactly if the limit now leaves room |
| Accounts.Manager.ResetTraffic | internal/user/manager.go:289-301 | one record's usage is zeroed and a quota lock, no other, goes |
| Accounts.Manager.Lock | internal/user/manager.go:304-320 | one record is locked for the given reason, "manual" if none is given |
| Accounts.Manager.Unlock | internal/user/manager.go:324-340 | frees one record exactly if it is unexpired and under quota |
| Accounts.Manager.Create | internal/user/manager.go:105-172 | a new record starts enabled with the given or default limits; an existing one is left alone |
| Accounts.Manager.Delete | internal/store/store.go:240-244 | removes one record |
| Accounts.FreedOnlyWhenFit | internal/user/manager.go:224-340 | a call that lifts an expiry or quota lock leaves that condition false; only Unlock lifts other locks |
| Accounts.OneFieldChanges | internal/user/manager.go:224-340 | field by field, for every call: when it is refused and what it sets; renewing adds its days to the expiry, or to now if that is past, so a valid account keeps its remaining time |
| Accounts.WhoIsLocked | internal/user/manager.go:224-340 | after every call, exactly who is locked and why |
| Accounts.WhomAPassLocks | internal/daemon/daemon.go:363-373 | a pass locks exactly the enabled accounts whose expiry has come or whose traffic, the pass's included, has reached its limit, expiry first; it unlocks nobody |
| Accounts.TickEnforces | internal/daemon/daemon.go:363-373 | after a pass with successful locks every enabled account is unexpired and under quota |
| Accounts.EveryStepFromCreate | internal/user/manager.go:105-340 | at every step of every run of calls and passes from Create: flag and reason agree, a lifted lock leaves its condition false, a manual lock goes only by Unlock, a pass that locks leaves enabled accounts unexpired and under quota, and reasons on record are true while traffic saves succeed |
| Accounts.RunsAreConsistent | internal/user/manager.go:224-340 | over every run of calls and passes, disabled holds exactly when a reason is on record, and while traffic saves succeed the reason is true |
| Accounts.ManualLockStays | internal/user/manager.go:304-340 | a lock made by hand survives every run without Unlock |
| Accounts.UsageSinceReset | internal/user/manager.go:289-301 | in every run the usage on record is the traffic of the saved passes since the last reset |
| Accounts.UnlockLifts | internal/user/manager.go:322-340 | exactly which locks Unlock lifts on accounts as runs leave them, failed traffic saves included |
| Accounts.UntrueLockWasUnsaved | internal/daemon/daemon.go:350-373 | over every run, a quota lock on an account whose usage on record is below its limit was set by a pass that could not save its traffic |
| Accounts.ExpiryLockTrue | internal/user/manager.go:222-259 | over every run an expiry lock means the expiry is past or was set to never |
| Accounts.UntrueQuotaLock | internal/daemon/daemon.go:350-373 | a quota lock whose traffic was never saved is reachable, and Unlock lifts it |
| Accounts.RenewHolds | internal/user/manager.go:222-244 | renewing frees an account locked for expiry and passes leave it free until it expires again |
| Accounts.ShownActive | internal/user/manager.go:60-72 | an account is shown active exactly if a pass at that moment leaves it enabled |
| Sessions.SortSorts | internal/session/session.go:133-138 | sorting gives a permutation in which the earlier start, and at equal starts the lower process ID, comes first |
| Sessions.SortedOnce | internal/session/session.go:133-138 | that listing is the only one, whatever the sorting algorithm |
| Sessions.ByUser | internal/session/session.go:211-217 | the grouping loop gives each user exactly his sessions, in listed order |
| Sessions.GroupsStaySorted | internal/session/session.go:211-217 | grouping keeps the order |
| Sessions.LimiterIsFair | internal/daemon/daemon.go:378-387 | exactly the allowed number survives, by start time under both policies; an account within its limit is not touched |
| Sessions.NobodyAfterwards | internal/daemon/daemon.go:378-387 | once the victims are gone and nobody logs in, later passes disconnect nobody |
| DaemonTick.Daemon.Count | internal/daemon/daemon.go:313-349 | the traffic loop charges each user the sum over his sessions and remembers exactly the scanned counters |
| DaemonTick.Daemon.AddTraffic | internal/store/store.go:208-237 | all users on record are charged in one transaction, or none |
| DaemonTick.Daemon.EnforceOne | internal/daemon/daemon.go:363-387 | the decision on one account: lock, disconnect all, disconnect some, or nothing |
| DaemonTick.WhomAPassDisconnects | internal/daemon/daemon.go:363-387 | every session of a locked account; nobody of an account due for locking; of any other, with the limiter on and a limit set, exactly as many as are too many, from the end or the front of the listing |
| DaemonTick.Daemon.Tick | internal/daemon/daemon.go:296-389 | one pass does to every account the deed of a pass, on meter and record; a user's usage grows by what his counters show beyond the saved baseline, or beyond what they show when they have none, it is the first pass and they started at or before the daemon, or else beyond zero; it disconnects exactly whom ToKill names, every session of a locked account among them, in any map order |
| DaemonTick.NewSessionsPay | internal/daemon/daemon.go:333-344 | without saved baselines: sessions that started at or before the daemon add nothing in the first pass, sessions that started after it, and all sessions in later passes, add all they show |
| DaemonTick.DeltaIsRises | internal/daemon/daemon.go:328-349 | what the loop adds to a user is the sum of those rises |
| DaemonTick.ChargedInGeneral | internal/daemon/daemon.go:328-349 | over every run of passes and restarts, whatever scans miss and however counters move: charged and never charged together are the last counter less where charging began, and what was charged twice |
| DaemonTick.ExactIffNoneSlipped | internal/daemon/daemon.go:333-344 | the charge is exact if and only if twice equals never; without returns right after a restart, if and only if no scan missed the session after a sighting with something on its counter and its counter never fell |
| DaemonTick.SlipExample | internal/session/session.go:108-113 | a session with a saved baseline of 100 that is missed once, or shown once with an unreadable counter, pays 120 for 20 |
| DaemonTick.ChargedExactly | internal/daemon/daemon.go:328-349 | when no scan misses a live session and its counter does not fall, it is charged exactly its last counter less where its charging began |
| DaemonTick.ChargedFromSightings | internal/daemon/daemon.go:328-349 | in terms of what passes show alone: over every run that sees a session steadily it pays its last sighting, less its saved baseline, or without one less its first sighting if that came in the first pass after a start and the session is not younger than the daemon, and less nothing otherwise |
| DaemonTick.BaseMeans | internal/daemon/daemon.go:333-344 | over every run, fair or not, where the charging of a session without a baseline begins, with the comparison of the start times written out |
| DaemonTick.SteadyIsFair | internal/session/session.go:108-113 | a session that every pass between two sightings shows, with a counter that never falls, slips nowhere |
| DaemonTick.UserPaysForWhatWasCarried | internal/daemon/daemon.go:318-359 | the deltas computed for a user are exactly what his sessions carried beyond where their charging began |
| DaemonTick.UsageIsCarriedSinceReset | internal/daemon/daemon.go:296-389 | over every life of passes, restarts and manager calls with working saves, the usage on record is exactly what the user's sessions carried since the last reset beyond the baselines saved then |
| Firewall.PortRules | internal/firewall/firewall.go:72-80 | the chunking loop puts 1 to 15 ports in each rule and all allowed ports in order |
| Firewall.Rules | internal/firewall/firewall.go:64-91 | evaluated first match, the chain gives every packet the verdict of the plain policy |
| Firewall.LetInOrOn | internal/firewall/firewall.go:72-80 | the multiport rules let in local TCP to their ports and leave every other packet to the rules after them |

## Left out

- The TUI, the commands, connection cards, the doctor and the installer: presentation and glue.
- Real sockets, TLS handshakes, certificates, socket options, starting `sshd -i`, systemd and iptables: outcomes of these calls are nondeterministic choices.
- `parseHeader`, `clientIP`, `isWebSocket` and `upgradeResponse`: a response is an arbitrary function of the block, since no byte that sshd receives depends on it.
- Client address bookkeeping (`peer`, `via`), counters other than the open-flow, handshake and unknown counters, and the cap on unauthenticated sshd processes.
- The DNS resolver cache: the resolver's answer is a parameter of handle.
- UdpgwServer.GatewayServer.Handle: the socket write after the locked section can fail or find the flow closed by then; that outcome is not modelled.
- UdpgwReplies.ReadyIsDelivered: it shows a way that is always open, not that schedulers take it; fairness of goroutines is not modelled.
- Addresses with zones: an address is its bytes and a port.
- GatewayWs.WsConn.Read: one call is one atomic step, so a Write of the other goroutine falls between calls, not between the frames that one call skips; the write lock keeps frames whole either way.
- GatewayWs.WsConn.Write: payloads are shorter than 2 to the 64th bytes, as every slice is.
- GatewayStreams.PeekClassify: a deadline is a number of looks; sleeping between looks is not modelled.
- GatewayConn.HandleTLS: starts after the TLS handshake, on the decrypted stream.
- SshdApply.Disk.Apply: the directive lines of each level are given, as is whether an Include line exists; the banner, the one-time backup and the service restart afterwards are not modelled.
- SshdApply.RemoveRestoresExactly: originals that already hold a begin marker are not covered, and settings must not contain the marker that ends their own block, nor the Match lines the begin marker of the global block.
- Accounts.Manager.Renew: a day is 86400 seconds; the calendar arithmetic of time zones with daylight saving is not modelled.
- Accounts.Manager.Create: the Linux account, the password and the default traffic limit are settled before.
- Accounts.Manager.Lock: disconnecting the account's sessions and synchronising the Linux account follow the transaction and are not modelled.
- DaemonTick.Daemon.Tick: rates, last-seen times, events and the ten-second pause between kills of one process are not modelled; counters are unbounded integers, so the 64-bit width of stored traffic is not reached.
- DaemonTick.ChargedExactly: restarts find the baselines of the last pass, which every pass publishes; a lost state file starts from empty baselines, as the constructor allows.
- /proc parsing, the database file format, JSON and YAML, backups: sessions and records are given data and each store call is one transaction.
- Process ID reuse, `session.Kill` and Kick: they depend on the operating system.
- Firewall rules as argument strings: a rule is a record of its tests.
