# Koho's tunnel and relay, modelled in Dafny

Koho carries the TCP connections of a container through one UDP channel. A *client* accepts
connections, gives each a uid, announces it and forwards what it reads; a *server* opens the matching
connections and forwards the other way. An empty body is the end of a connection. Beside the tunnel, a
DNS proxy relays TCP connections through two ring buffers and a poller, and reassembles framed UDP
requests. This project models these parts and proves what they keep.

## How the model is organised

- `Wrappers`, `Text`, `SplitTcpPacket`: bytes, decimal text and addresses, the wire codec.
- `FileDescriptors`: reads, short writes, the write-all loop, service counters, and the two UDP sockets.
- `SplitterSpec`: what each handler of client and server does, as functions on values, and the
  agreement between connection map and epoller table.
- `Connections`, `SplitterClients`, `SplitterServers`: the processes as classes whose methods change the
  maps, sockets and counters in place. Each keeps a ghost `history` of its events with what the kernel
  answered, and its invariant `Valid()` says that maps, datagrams sent, and the bytes received and put
  out by the sockets of every uid are what `SplitterSpec` makes of that history.
- `SplitterAddresses`: where connections and the server's datagrams should go, told from the history
  alone. `Valid()` says that they do.
- `Tunnel`: runs of both processes and the network between them, made of the same handler functions.
  A run is any sequence of events that can happen: accepts, reads of any size, deliveries, refused
  connects, and for faulty networks losses and copies.
- `TunnelSafety`, `TunnelNoDuplication`, `TunnelInOrder`: what holds on any network, on one that does not
  duplicate, and on one that loses nothing and keeps each connection's packets in order (a FIFO channel
  is a special case). `TunnelInOrder` shows that a run is a product of independent per-connection runs.
- `TunnelLimits`: which kinds of network give which guarantee, both ways, with a run that breaks it on
  the others; and the exact conditions for the asserts.
- `SplitterRuns`: the two classes and the tunnel put together. Whatever way the events of two processes
  and the network interleave, datagrams and all, they are a run of `Tunnel`, so stream integrity,
  agreement and the absence of failed asserts hold of the processes' sockets and maps, and every
  connection of the server leads to the original destination of the client's connection.
- `ByteStreamQueues`: the ring buffer over an array, with `size_t` wrap-around written out.
- `RelaySpec`, `TcpRelays`: the relay's poll rounds on values, and the poller and relay in place.
- `DnsFraming`, `InterfaceAddresses`: the UDP request path and the search for free addresses.

What the kernel decides is a parameter everywhere: how many bytes a read returns or a write takes (0 for
a write is the "returned 0" exception), fd numbers, datagrams and their sources, connect results, poll
results. A new fd is assumed not to be open, a datagram to have a non-zero source address, and a blocking
read to return at least one byte unless the stream has ended. Statements about a whole tunnel are for
runs with at most 2^64 accepted connections; `UidWrapAbortsClient` shows that this bound is sharp.

Two places where the code is not followed to the letter. `src/util/epoller.cc:64` reads an action after a
callback that may have erased it; the model makes that check only while the action is registered. And
`src/tcp_splitter/tcp_splitter_client.cc:74-78` unlocks its mutex twice after an exception; the model has
the path where `accept`, `write` and `epoll_ctl` succeed there.

## Model

| member | source | states |
|---|---|---|
| SplitTcpPacket.FromToBigEndian | src/tcp_splitter/split_tcp_packet.cc:21-26 | reading a printed field of any width gives the number back |
| SplitTcpPacket.ToFromBigEndian | src/tcp_splitter/split_tcp_packet.cc:8-18 | printing a field that was read gives its bytes back |
| SplitTcpPacket.BigEndianDigit | src/tcp_splitter/split_tcp_packet.cc:8-26 | network byte order: byte i of a field is the digit of weight 256^(width - 1 - i) |
| SplitTcpPacket.WireFormat | src/tcp_splitter/split_tcp_packet.cc:38-52 | a packet on the wire is seven zero bytes and the flag, the uid most significant byte first, and the body |
| SplitTcpPacket.ParsedFormat | src/tcp_splitter/split_tcp_packet.cc:8-58 | any datagram: refused exactly below 16 bytes; announces exactly if a byte of the first field is not zero; the second field's bytes are the uid's digits; the rest is the body |
| SplitTcpPacket.ParseToString | src/tcp_splitter/split_tcp_packet.cc:28-58 | every flag, 64-bit uid and body survives printing and parsing |
| SplitTcpPacket.ToStringParse | src/tcp_splitter/split_tcp_packet.cc:33-58 | parsing fails exactly below 16 bytes; what was parsed prints back to the datagram exactly if its first field is 0 or 1 |
| SplitTcpPacket.DatagramBound | src/tcp_splitter/tcp_splitter_common.hh:42-43 | a packet fits in 1400 bytes exactly if its body is within the read limit |
| Text.AtoiOfDecimal | src/tcp_splitter/tcp_splitter_server.cc:68 | `atoi` undoes `to_string` |
| Text.DecimalDigits | src/tcp_splitter/tcp_splitter_client.cc:66 | decimal text has the most significant digit first and no leading zero |
| Text.AddressFields | src/tcp_splitter/tcp_splitter_client.cc:66 | an announcement's text holds the octets in order with dots between them, and the port after a colon |
| Text.CutIsUnique | src/tcp_splitter/tcp_splitter_server.cc:66-68 | the first separator is the one put in, if the first part has none |
| Text.AddressRoundTrip | src/tcp_splitter/tcp_splitter_server.cc:66-68 | every IPv4 address and port survives the text of an announcement |
| FileDescriptors.FileDescriptor.Read | src/util/file_descriptor.cc:71-83 | a read takes the next bytes of the stream, within limit and buffer size, sets the end-of-stream flag exactly on an empty result, and counts |
| FileDescriptors.FileDescriptor.WriteSome | src/util/file_descriptor.cc:53-68 | one short write, with both exceptions |
| FileDescriptors.FileDescriptor.Write | src/util/file_descriptor.cc:86-95 | for any short writes the loop ends, having written exactly the buffer in order; it fails exactly at the first call that takes nothing, with what earlier calls took written; without `write_all` there is one call |
| FileDescriptors.UdpSocket.Read | src/util/file_descriptor.cc:71-83 | a datagram cut at the buffer size; an empty one sets the end-of-stream flag; the call counts as a read |
| FileDescriptors.AutoSocket.Read | src/util/autosocket.hh:22-28 | the source of the datagram becomes the reply address |
| FileDescriptors.AutoSocket.Write | src/util/autosocket.hh:31-42 | a datagram goes to the saved address, or is dropped without one; either counts as a write |
| SplitterSpec.FreshFdIsUnregistered | src/util/epoller.cc:17-20 | an fd is registered exactly if it is open, so a fresh or reused number passes the assert of `add_action`; connections have distinct fds |
| SplitterSpec.AddConnectionKeepsRegistered | src/tcp_splitter/tcp_splitter_server.cc:30-48 | adding a connection keeps map and epoller table in agreement |
| SplitterSpec.CloseConnectionKeepsRegistered | src/tcp_splitter/tcp_splitter_common.hh:18-28 | closing one keeps them in agreement |
| SplitterSpec.DispatchReadsItsOwnFd | src/tcp_splitter/tcp_splitter_common.hh:35-40 | a registered connection callback finds its uid, and its connection has the fd of the event |
| SplitterSpec.ClientAbortsIff | src/tcp_splitter/tcp_splitter_client.cc:57-84 | the client's asserts fail exactly on a uid that came round while held, or on a packet that announces |
| SplitterSpec.ServerAbortsIff | src/tcp_splitter/tcp_splitter_server.cc:30-78 | the server stops exactly on an announcement of a held uid or of an address that does not parse |
| SplitterSpec.ReceiptNeverBounces | src/tcp_splitter/tcp_splitter_server.cc:61-82 | receiving never causes a packet, except one end-of-stream packet for a refused connect; an empty body is never answered |
| Connections.ConnectionTable.AddFixed | src/tcp_splitter/tcp_splitter_client.cc:37-46 | a long-lived socket enters the epoller's table |
| Connections.ConnectionTable.Add | src/util/epoller.cc:17-27 | connection and action enter both tables; the object behind the action is the connection's socket |
| Connections.ConnectionTable.Close | src/tcp_splitter/tcp_splitter_common.hh:18-28 | both leave both tables, and nothing else changes |
| Connections.ConnectionTable.ReadFrom | src/tcp_splitter/tcp_splitter_common.hh:41-43 | a read takes the connection's next bytes, as many as the kernel grants within the limit; no other connection's account changes |
| Connections.ConnectionTable.WriteTo | src/tcp_splitter/tcp_splitter_server.cc:84-89 | the whole chunk goes to that connection, and no other connection's account changes; or the write throws |
| Connections.ConnectionTable.Receive | src/tcp_splitter/tcp_splitter_common.hh:32-50 | reads the connection's next bytes, closes it exactly at the end of its stream, writes to no connection |
| Connections.ConnectionTable.Deliver | src/tcp_splitter/tcp_splitter_server.cc:79-89 | writes the whole body to that connection and to no other, or closes it |
| SplitterClients.SplitterClient.constructor | src/tcp_splitter/tcp_splitter_client.cc:22-46 | an empty, registered table with the listener and the tunnel socket; uids start at 1; nothing has happened yet |
| SplitterClients.SplitterClient.GetConnectionUid | src/tcp_splitter/tcp_splitter_client.hh:38 | hands out the counter and moves it on, modulo 2^64 |
| SplitterClients.SplitterClient.HandleNewTcpConnection | src/tcp_splitter/tcp_splitter_client.cc:57-79 | one new connection under a new uid, registered, and one datagram that announces it with the text of its original destination; or the assert |
| SplitterClients.SplitterClient.ReceivePacketFromSplitterServer | src/tcp_splitter/tcp_splitter_client.cc:81-103 | the state is that of the handler function, and each connection's output grows by exactly the chunk written to it |
| SplitterClients.SplitterClient.ReceiveBytesFromTcpConnection | src/tcp_splitter/tcp_splitter_common.hh:30-54 | the chunk read is the connection's next bytes, and one packet with it is sent |
| SplitterClients.SplitterClient.Dispatch | src/util/epoller.cc:54-67 | a stale event is skipped; another has the effect that its callback has on what the kernel answered; no callback is caught not servicing its fd |
| SplitterClients.SplitterClient.HandleEvent | src/util/epoller.cc:54-67 | the event joins the history with exactly what the kernel answered: the new fd, destination, datagram, and the next bytes of the connection's socket; state, datagrams and every socket's bytes follow, or the process stops where the spec does or at a refused write |
| SplitterClients.SplitterClient.Poll | src/util/epoller.cc:47-70 | a batch whose callbacks edit the table has the effect of its events one by one, each with what the kernel answered to it, on maps, datagrams and the bytes of all sockets; it never reports a busy wait |
| SplitterServers.SplitterServer.constructor | src/tcp_splitter/tcp_splitter_server.cc:21-28 | an empty, registered table with the tunnel socket, and no reply address; nothing has happened yet |
| SplitterServers.SplitterServer.Send | src/tcp_splitter/tcp_splitter_common.hh:51-52 | a packet goes to the reply address, or is dropped without one |
| SplitterServers.SplitterServer.EstablishNewTcpConnection | src/tcp_splitter/tcp_splitter_server.cc:30-48 | a registered connection to the destination, or nothing at all if the connect is refused |
| SplitterServers.SplitterServer.HandleAnnouncement | src/tcp_splitter/tcp_splitter_server.cc:61-76 | a connection to the address announced, or one end-of-stream packet back to the reply address; the assert without a colon, the exception for a host that does not parse; it goes on exactly when the spec does |
| SplitterServers.SplitterServer.HandlePacket | src/tcp_splitter/tcp_splitter_server.cc:58-92 | the state is that of the handler function, and each connection's output grows by exactly the chunk written to it |
| SplitterServers.SplitterServer.ReceiveBytesFromTcpConnection | src/tcp_splitter/tcp_splitter_common.hh:30-54 | the chunk read is the connection's next bytes, and one packet with it goes to the reply address; an empty chunk closes the connection |
| SplitterServers.SplitterServer.DeliverPacket | src/tcp_splitter/tcp_splitter_server.cc:77-89 | a body is written whole to the connection of its uid and to no other, or an empty one closes it |
| SplitterServers.SplitterServer.StaysWellAddressed | src/util/autosocket.hh:22-42 | with every event, each datagram has gone to the source of the latest one that had come in by then, and each connection goes to the address of its announcement |
| SplitterServers.SplitterServer.HandleEvent | src/util/epoller.cc:54-67 | as on the client; where datagrams and connections go follows too |
| SplitterServers.SplitterServer.Poll | src/util/epoller.cc:47-70 | as on the client |
| Tunnel.IssuedOnce | src/tcp_splitter/tcp_splitter_client.hh:24-38 | the counter's next uid has not been issued before, for the first 2^64 calls |
| TunnelSafety.RegistrationAgreement | src/tcp_splitter/tcp_splitter_common.hh:18-40 | any network: in every reachable state fds are distinct and each side's actions are the fixed sockets it began with and one per connection |
| TunnelSafety.NoCrossTalk | src/tcp_splitter/tcp_splitter_common.hh:43-52 | any network: every chunk written to a connection is a non-empty chunk read from the connection with that uid on the other side |
| TunnelSafety.ClientNeverAborts | src/tcp_splitter/tcp_splitter_client.cc:84 | any network: the client's asserts hold, it never gets an announcement, and every announcement in flight has an address |
| TunnelSafety.ClientNeverReopens | src/tcp_splitter/tcp_splitter_client.cc:61-62 | any network: a uid the client closed never comes back |
| TunnelSafety.EveryReplyIsSent | src/util/autosocket.hh:31-42 | any network: no forwarded read of the server is dropped for want of a reply address, and forwarded datagrams fit in 1400 bytes |
| TunnelNoDuplication.NoAssertFails | src/tcp_splitter/tcp_splitter_server.cc:32-78 | loss and any reordering: neither process aborts, and no announcement of a held uid is in flight |
| TunnelNoDuplication.AtMostOneEof | src/tcp_splitter/tcp_splitter_common.hh:46-53 | loss and any reordering: each side sends at most one end-of-stream packet per uid, refused connects included, and has then let the uid go |
| TunnelNoDuplication.ClosedStaysClosed | src/tcp_splitter/tcp_splitter_server.cc:79-82 | loss and any reordering: a closed uid never reappears on that side |
| TunnelInOrder.AcceptProjects | src/tcp_splitter/tcp_splitter_client.cc:57-79 | an accept starts the life of one uid and touches no other |
| TunnelInOrder.ToServerProjects | src/tcp_splitter/tcp_splitter_server.cc:58-92 | a packet taken by the server moves one uid's view and no other |
| TunnelInOrder.ToClientProjects | src/tcp_splitter/tcp_splitter_client.cc:81-103 | a packet taken by the client moves one uid's view and no other |
| TunnelInOrder.StreamIntegrity | src/tcp_splitter/tcp_splitter_common.hh:43-52 | in order: bytes written are a prefix of bytes read on the other side; while the receiver is open, written and in-flight bytes are exactly the bytes read |
| TunnelInOrder.RemoteEofMeansAllDelivered | src/tcp_splitter/tcp_splitter_server.cc:79-82 | in order: a side that closed on the other side's end-of-stream packet has written every byte the other read |
| TunnelInOrder.OneSidedUidsAreInFlight | src/tcp_splitter/tcp_splitter_server.cc:60-90 | in order: a uid held by one side only has its announcement or an end-of-stream packet in flight |
| TunnelInOrder.AgreementAtQuiescence | src/tcp_splitter/tcp_splitter_server.cc:60-90 | in order: with both channels empty both sides hold the same uids, and all bytes read from them are written |
| TunnelInOrder.DrainingEndsInAgreement | src/tcp_splitter/tcp_splitter_server.cc:69-82 | in order: without new socket activity deliveries are bounded in number, never get stuck, and end in agreement |
| TunnelLimits.ServerSurvivesIff | src/tcp_splitter/tcp_splitter_server.cc:78 | any network, any reachable state: a packet aborts the server exactly if it announces a uid the server holds |
| TunnelLimits.AcceptSurvivesIff | src/tcp_splitter/tcp_splitter_client.cc:57-84 | any network, any reachable state: an accept aborts the client exactly if the counter's uid is still held, and a packet never does |
| TunnelLimits.AgreesIffInOrder | src/tcp_splitter/tcp_splitter_server.cc:60-90 | agreement at quiescence is guaranteed exactly by networks that lose nothing and keep order |
| TunnelLimits.StreamsIntactIffInOrder | src/tcp_splitter/tcp_splitter_common.hh:43-52 | so is the prefix property of the streams |
| TunnelLimits.NoAssertFailsIffNotDuplicating | src/tcp_splitter/tcp_splitter_server.cc:78 | that no assert fails is guaranteed exactly by networks that do not duplicate |
| TunnelLimits.ClientSurvivesIff | src/tcp_splitter/tcp_splitter_client.hh:24-38 | any network: the client survives every run of up to n accepts exactly if n is at most 2^64 |
| TunnelLimits.LossBreaksAgreement | src/tcp_splitter/tcp_splitter_client.cc:66-68 | a lost announcement leaves the client alone with its uid for good |
| TunnelLimits.DuplicationAbortsServer | src/tcp_splitter/tcp_splitter_server.cc:78 | a duplicated announcement aborts the server |
| TunnelLimits.ReorderingBreaksStreams | src/tcp_splitter/tcp_splitter_common.hh:51-52 | two chunks of one connection out of order break its stream |
| TunnelLimits.UidWrapAbortsClient | src/tcp_splitter/tcp_splitter_client.hh:38 | with 2^64 + 1 accepted connections the counter reaches a held uid and the client aborts |
| SplitterRuns.ClientStepIsEvent | src/tcp_splitter/tcp_splitter_client.cc:81-103 | an event of the client on the datagram of a packet in flight is the tunnel event that takes the packet; accepts and forwarding reads likewise |
| SplitterRuns.ServerStepIsEvent | src/tcp_splitter/tcp_splitter_server.cc:58-92 | the same for the server |
| SplitterRuns.ScheduleIsRun | src/util/epoller.cc:47-70 | any interleaving of both processes' events and the network's is a run of the tunnel |
| SplitterRuns.ScheduleIsProduct | src/util/epoller.cc:47-70 | in it each side is where its own events alone take it: state, packets sent, chunks read and written |
| SplitterRuns.ProcessesAreInRun | src/tcp_splitter/tcp_splitter_common.hh:30-54 | maps, datagrams sent, and the bytes received and put out by the sockets of two processes are those of a run of the tunnel |
| SplitterRuns.SocketsCarryStreams | src/tcp_splitter/tcp_splitter_common.hh:43-52 | stream integrity of the sockets: what one side puts out is a prefix of what the other received; while the receiver is open the difference is in flight |
| SplitterRuns.ProcessesAgree | src/tcp_splitter/tcp_splitter_server.cc:60-90 | with both channels empty the two connection maps hold the same uids, and their sockets put out exactly what the other side received |
| SplitterRuns.ClientStepSends | src/tcp_splitter/tcp_splitter_client.cc:61-68 | only an accept sends an announcement: of a uid that none was sent for before, with the destination of that accept |
| SplitterRuns.ServerStepOpens | src/tcp_splitter/tcp_splitter_server.cc:66-69 | every address the server was asked to connect to is one that the client announced for that uid |
| SplitterRuns.ConnectionsLeadWhereMeant | src/tcp_splitter/tcp_splitter_server.cc:66-69 | any network: every connection the server holds leads to the original destination of the connection that the client accepted with its uid |
| SplitterAddresses.OneDestinationEach | src/util/autosocket.hh:31-42 | the account of destinations has one entry for each packet the server sent |
| SplitterRuns.NoEventStopsAProcess | src/tcp_splitter/tcp_splitter_server.cc:32-78 | without duplication no event stops either process, so by the contracts of Poll no assert fails |
| SplitterRuns.Deploy | src/tcp_splitter/tcp_splitter_client.cc:22-46 | two processes that have just started have lived through the empty schedule |
| SplitterRuns.ClientHandles | src/util/epoller.cc:54-67 | handling any event that fits the network takes the client and the tunnel one step further together; without duplication it never stops the process, unless the kernel refuses a write |
| SplitterRuns.ServerHandles | src/util/epoller.cc:54-67 | the same for the server |
| ByteStreamQueues.RingArithmeticIsExact | src/util/bytestream_queue.cc:20-30 | used and free space are exact in modular `size_t`, and add up to all but one slot |
| ByteStreamQueues.ContiguousIsMin | src/util/bytestream_queue.cc:38-43 | the contiguous region is the smaller of what is available and what is left to the end, non-empty when something is available, inside the buffer |
| ByteStreamQueues.ByteStreamQueue.constructor | src/util/bytestream_queue.cc:10-18 | an empty ring of any size above 1 |
| ByteStreamQueues.ByteStreamQueue.Push | src/util/bytestream_queue.cc:32-62 | the read asks for all the space before the buffer ends; exactly the bytes read are appended, or nothing changes at the end of the stream |
| ByteStreamQueues.ByteStreamQueue.Pop | src/util/bytestream_queue.cc:64-87 | the write offers all the bytes before the buffer ends; exactly the prefix taken is removed |
| RelaySpec.InterestIsStable | src/util/poller.cc:25-73 | interest computed at the start of a round still holds when each callback has its turn |
| RelaySpec.OwnInterestEndsIff | src/util/bytestream_queue.cc:34-36 | exactly when an entry's own callback ends its interest, so that a second one on the queue could not rely on it |
| RelaySpec.RoundMoves | src/util/poller.cc:25-74 | a round, complete or cut off, in terms of the flows before it: a popper writes exactly if its event is reported and its queue had something; a pusher reads, or sees the end, exactly if its event is reported, its source had not ended and its queue had space |
| RelaySpec.RelayConserves | src/util/dns_proxy.cc:107-130 | after any rounds, complete or cut off, bytes read are bytes written followed by the queue, in each direction on its own |
| RelaySpec.QuitsIffDelivered | src/util/poller.cc:38-42 | the poller quits exactly when both peers have ended and every byte of each was written to the other |
| RelaySpec.RoundsAreBounded | src/util/poller.cc:48-74 | the rounds that report an event are at most twice the bytes sent, plus two |
| TcpRelays.TcpRelay.constructor | src/util/dns_proxy.cc:105-124 | two empty queues and four actions, in order |
| TcpRelays.TcpRelay.AddAction | src/util/poller.cc:10-14 | one action and one poll entry are appended |
| TcpRelays.TcpRelay.PushFromServer | src/util/dns_proxy.cc:110-112 | moves bytes from the DNS server into one queue; asks to be cancelled exactly at the end of the stream |
| TcpRelays.TcpRelay.PushFromClient | src/util/dns_proxy.cc:114-116 | moves bytes from the client into the other queue |
| TcpRelays.TcpRelay.PopToServer | src/util/dns_proxy.cc:118-120 | moves bytes from the client's queue to the DNS server |
| TcpRelays.TcpRelay.PopToClient | src/util/dns_proxy.cc:122-124 | moves bytes from the server's queue to the client |
| TcpRelays.TcpRelay.SnapshotInterest | src/util/poller.cc:25-36 | a popper is interested exactly if its queue has something; a pusher exactly if it is active, its source has not ended, and its queue has space |
| TcpRelays.TcpRelay.RunCallback | src/util/dns_proxy.cc:110-124 | each entry's callback moves its own flow, by exactly as much as queue, buffer end and kernel allow |
| TcpRelays.TcpRelay.Service | src/util/poller.cc:57-72 | one callback has its effect, deactivation included, and the busy-wait check passes |
| TcpRelays.TcpRelay.TakeTurn | src/util/poller.cc:49-72 | an entry's turn ends the poll exactly if its fd has an error or hang-up, before any callback; otherwise the callback runs if its event was asked for and reported |
| TcpRelays.TcpRelay.DispatchEvents | src/util/poller.cc:48-74 | the loop acts on the snapshot in order up to the first error, and every queue assert holds |
| TcpRelays.TcpRelay.Poll | src/util/poller.cc:21-77 | quit, timeout, exit at the first error and success as in the source; what each socket reads and writes; no assert fails and no busy wait is reported |
| TcpRelays.TcpRelay.PollOnce | src/util/dns_proxy.cc:126-130 | one turn of the loop keeps conservation, and uses up some of the work left if it reports an event |
| TcpRelays.TcpRelay.Serve | src/util/dns_proxy.cc:126-130 | the loop polls once for each kernel answer until it ends; it keeps conservation; events and work left never exceed the work at the start; an exit without a kernel error means full delivery both ways; and with a kernel that helps, more answers than work make it exit |
| DnsFraming.FrameFormat | src/util/dns_proxy.cc:57-59 | the length field is the request's length, most significant byte first, modulo 65536 |
| DnsFraming.FrameRoundTripIff | src/util/dns_proxy.cc:57-59 | a framed request decodes to itself exactly up to 65535 bytes |
| DnsFraming.ExactResponseIsCollected | src/util/dns_proxy.cc:66-73 | a response of the declared length is collected whole however it is chunked; a shorter one never reaches it |
| DnsFraming.CollectedIsFirstReaching | src/util/dns_proxy.cc:66-73 | the bytes collected are the first sum of reads, each limited by the buffer only, that reaches the declared length, or everything |
| DnsFraming.SurplusSegmentIsTakenWhole | src/util/dns_proxy.cc:67-68 | a read takes a whole segment, more than is missing if it is there |
| DnsFraming.SurplusSegmentIsRefused | src/util/dns_proxy.cc:75-78 | a response in one segment with surplus bytes behind it is not relayed |
| DnsFraming.NothingReceived | src/util/dns_proxy.cc:63-78 | what happens when the DNS server sends nothing |
| DnsFraming.ChunksDoNotMatterIff | src/util/dns_proxy.cc:66-78 | whether the bytes collected total the declared length is independent of the chunks exactly if nothing is declared or the response is not longer than declared |
| DnsFraming.CollectResponse | src/util/dns_proxy.cc:66-73 | the loop collects a prefix of the stream, of the length the reads determine |
| DnsFraming.HandleUdp | src/util/dns_proxy.cc:57-81 | the framed request is written, and the response is relayed exactly if the bytes collected total the declared length |
| DnsFraming.FramingIsFollowedIff | src/util/dns_proxy.cc:63-78 | with both length bytes in the first read, what is relayed is what the framing says, for all chunkings, exactly if the stream is not longer than declared |
| DnsFraming.FramedResponseIsRelayedIff | src/util/dns_proxy.cc:63-78 | a framed response is relayed as sent exactly if the first read returns both length bytes, or it is empty, or it is all NULs of a suitable length and the reads stop there |
| InterfaceAddresses.IpIsInjective | src/util/interfaces.cc:105-109 | comparing addresses by text is comparing hosts |
| InterfaceAddresses.Interfaces.AddressInUse | src/util/interfaces.cc:103-112 | true exactly if some address in the list has this host |
| InterfaceAddresses.Interfaces.FirstUnassignedAddress | src/util/interfaces.cc:114-126 | the lowest free octet from the start up to 255; it fails exactly if there is none |
| InterfaceAddresses.TwoUnassignedAddresses | src/util/interfaces.cc:128-138 | the two lowest free octets from 1, distinct and unused; it fails exactly if fewer than two are free |

## Left out

- SplitterClients.SplitterClient.HandleNewTcpConnection: exceptions of `accept`, `write` and `epoll_ctl` are not modelled, and the announcement that goes out just before the assert on a held uid is not recorded, because the process ends there.
- SplitterClients.SplitterClient.Poll: which fds are ready is not modelled; a stale event whose fd number has been reused runs the new connection's callback, as in the code. That a chunk is the next bytes of its socket is stated event by event, in `HandleEvent`.
- Text.ParseHost: only hosts of four decimal parts; other numeric forms that `getaddrinfo` takes never appear in an announcement.
- Exceptions of system calls other than a write that returns 0, and a connection write that fails: they end the process or the relay.
- Processes are single-threaded, so handlers are atomic steps and the mutexes are left out.
- One client for each server: uids are per client, and the server answers only the latest sender.
- End of stream closes both directions of a connection, so during teardown delivery is a prefix, as stated.
- Retransmission, reordering repair and congestion control, of which the code has none.
- `EventLoop`, `ChildProcess`, `SignalFD`, container set-up, NAT, veth devices, dnsmasq and both `main` functions: system plumbing.
- Reading addresses in use from the system, `Address` memory layout, logging and error texts.
