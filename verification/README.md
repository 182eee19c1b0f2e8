# Verified model of the VPN-to-proxy relay

The repository relays an Android device's traffic to an HTTP proxy twice over: a
native engine in C that terminates the app's TCP connections on a tun device, and
a Java engine that rewrites addresses and relays between socket channels. This
project models both as Dafny programs and proves what they promise over every
interleaving of packets, partial sends, failures and timers.

Code that computes is a function. Code that changes state is a class or a method
over fields, sequences and arrays, proved equal to the step its function defines.
Everything the outside world answers (clocks, `send`, `recv`, tun writes, opened
descriptors, `epoll_ctl`, channel writes) is an argument, so a statement about
all arguments is a statement about all behaviours of the surroundings.

`TcpSession` refines `TcpModel`: its methods assign one field after the other and
go on with what they have already overwritten, walk the queue with an index and
splice it, and leave loops early, as the C code does. What the object layer adds
is that this order of assignments amounts to the step defined on values. The
theorems are about the steps, and so are the loops over the session list, which
holds sessions of three kinds as values.

| module | what it models |
|---|---|
| `Words` | 32-bit words and `compare_u32` |
| `TcpQueue`, `TcpModel` | the segment queue; every handler of the TCP terminator as a step of a connection with its log |
| `TcpAccounting`, `TcpStream`, `TcpWindow`, `TcpReceive` | what every run keeps: sequence numbers and state order, reassembly, the send window, flow control and the order of relayed data |
| `TcpPackets`, `TcpEvents` | what every packet, socket event and timer does, in header fields and states: answers, state changes, acknowledgements and timeouts; FINs over whole runs |
| `TcpGranted`, `TcpProgress` | runs from the SYN on: which bytes the app granted, and when the next byte goes out |
| `TcpShort` | reassembly of streams that fit the sequence space, whatever `compare_u32` answers |
| `TcpWrapped` | `compare_u32` with wrapped differences across 2^31, and runs in which it does not matter |
| `TcpSession` | the same handlers as methods of an object with fields, queue splicing and loops |
| `SessionTable`, `SessionFds`, `EventLoop` | the mixed session list: timeouts, deletion while iterating, the poll wait, descriptor ownership, the loops |
| `SessionPackets` | which session a packet reaches, and that no two sessions share a key, over every run |
| `Relay`, `TunnelObjects` | the paired Java channels as a state machine, and as two objects that update each other |
| `RelayFlow` | who waits for what after every dispatch, that some side always does, and which sides are never read again |
| `Layout`, `Checksum` | byte fields; the Internet checksum in both byte orders |
| `NatPacket`, `Nat`, `NatService` | address rewriting in place, the session table, and the service object |
| `NatRuns` | the NAT's table read off the packets of a run, and with it which packets are written |
| `Sni` | both ClientHello parsers and an encoder for well-formed records |
| `FakeIp` | the fake-address allocator |
| `Dns`, `DnsBuffer` | the DNS parser and the answer rewrite |
| `IpMask` | the network index |

## What the code does differently from what it promises

Where a promise is not kept for all inputs, the model follows the code, a lemma
shows an input for which it fails, and the property is proved with its exact
condition.

- A failed `send` counts as sent. `sent > len` (app/src/main/cpp/tcp.c:325)
  compares `ssize_t` with `size_t`, so -1 becomes a huge number: the rest of the
  head segment counts as forwarded, the error branch behind it never runs, and
  the app gets an acknowledgement for the lost bytes
  (`TcpStream.FailedSendIsAcknowledged`). Reassembly therefore holds if and only
  if no send the loop makes fails with bytes left to send, a condition on the
  events of the run (`TcpStream.Fails`, `TcpStream.Reassembly`).
- `compare_u32` subtracts in 32 bits (app/src/main/cpp/util.c:31-34), where section
  3.2 of RFC 1982 intends unbounded differences. The model has both: every
  connection carries the kind of subtraction it was built with, and theorems hold
  for either kind unless they say otherwise. The two agree exactly when the signed
  views of the words are less than 2^31 apart (`Words.WrappedComparisonDomain`).
  Accounting, descriptor ownership, flow control, the order of relayed data, the
  send window and the reassembly of streams below 2^32 bytes
  (`TcpShort.ShortReassembly`) do not need that. The order of the queue, the
  reassembly of longer streams and progress do: they assume that no two numbers
  compared lie across 2^31, and then the compiled code does what the code over
  unbounded differences does (`TcpWrapped.RunIntended`).
- Across 2^31 the compiled code closes the send window
  (`TcpWindow.SendWindowMeaning`), ignores newer acknowledgements or resets the
  session (`TcpWrapped.NewerAckTakenIff`), drops segments
  (`TcpWrapped.DropsWhatIsBehindIff`) or puts them in front of the head
  (`TcpWrapped.EnqueueAgreesIff`). A run from the SYN shows a session stuck that
  way, its next byte queued behind a later one (`TcpWrapped.HeadOvertaken`).
- `acked` moves back exactly for a few odd words, one triple over unbounded
  differences, by 2^31-1 (`TcpWindow.AckNeverMovesBack`,
  `TcpWindow.OddAckMovesBack`).
- The window of a packet is applied at `acked`, not at the packet's own
  acknowledgement, so an overtaken packet can widen the edge
  (`TcpWindow.EdgeIsGrantedIff`). Nothing is sent beyond the largest edge the app
  ever granted, in the run or in what may follow without further packets, if and
  only if every packet after which the session can still send acknowledges nothing
  older than `acked`, or its window counted from `acked` reaches no further than an
  edge granted before (`TcpGranted.GrantedWindowSafety`). After any other packet
  the bytes that pass are a matter of reading on (`TcpGranted.UncoveredPasses`); a
  run from the SYN passes every edge by ten bytes
  (`TcpGranted.OvertakenAckPassesEveryGrant`).
- The bytes queued are summed in 32 bits, so the receive window keeps its promise
  exactly while fewer than 2^32 bytes are queued (`TcpReceive.ReceiveWindowRoom`);
  65538 full segments are more (`TcpReceive.OverfullQueue`), disjoint segments
  never are (`TcpReceive.DisjointFits`).
- A NAT session is lost only to a packet that opens a session while more than 60
  are there, and only when idle for over a minute by then; a reply is written
  exactly if its port's session was not lost that way (`NatRuns.ReplyWrittenIff`).
- The C checksum is the byte swap of the Java sum exactly while the sum fits 32
  bits (`Checksum.ByteOrderIndependent`), which IP packets always do
  (`Checksum.NoOverflow`).
- A NAT reply takes its source address from the reply, not from the session, so it
  is the exact reverse of the last outbound packet if and only if it carries that
  packet's remote address (`Nat.ReplyReversed`). When one port talks to two remote
  ends in turn, a late reply of the first mixes the two (`Nat.LateReplyMixed`).
- A CONNECT request that leaves in more than one write is never answered: the key
  is cancelled and registered again in one step, which throws
  (`Relay.SplitRequestDisposes`), so in every run an established tunnel had sent
  its request in one write (`Relay.EstablishedMeansOneWrite`).
- Back-pressure stops a direction for good. The interest in writing takes the place
  of the interest in reading; when the leftover is sent the key is cancelled and
  only the brother registers again. One side always goes on
  (`RelayFlow.SomeoneListens`), but once a side's channel could not take all, then
  from the next select on nothing is ever read from that side
  (`RelayFlow.PressureSilences`); exactly the sides so silenced are never read again
  (`RelayFlow.SilentIff`). If both sides are blocked in one round the pair ends
  (`RelayFlow.ReadForwards`).
- The proxy's answer is judged by twelve bytes of a shared buffer even when fewer
  were read. The judgement depends on the bytes read alone exactly unless they are
  a proper part of a 200 (`Relay.AnswerDecidedIff`). Without such a read nothing is
  read from the app before the proxy sent its 200 (`Relay.ProxyAnsweredFirst`), and
  every such read has a run that reads from the app without it
  (`Relay.AmbiguousAnswerOpens`).
- The C parser cuts a host name at 255 bytes and at a NUL, the Java parser does
  not; they agree on a well-formed record with a name exactly when neither applies
  (`Sni.ParsersAgree`). Without a name the Java parser goes on behind the record and
  may take a name from there (`Sni.StrayName`).
- The probing loop of the fake-address allocator never ends once all 65536
  addresses are taken, and only then (`FakeIp.ProbeEnds`, `FakeIp.AllCallsReturn`).
- A rewritten DNS answer parses back exactly when it is at most 512 bytes
  (`Dns.TamperedParsesBack`). Compression pointers cannot loop forever: following
  one raises the limit of the wrapped array, which ends in an exception
  (`Dns.ReadName`, `Dns.PointerCycleFails`).
- A mask of 0 without a record for network 0 makes every address match
  (`IpMask.IndexAgreesWithScan`). The file is loaded as it is when no read ends
  inside a record (`IpMask.WholeReadsLoadFile`); a record cut in two by the reads
  is completed with old bytes, and can bring such a mask in
  (`IpMask.CutRecordMatchesAll`).

## Model

| member | source | states |
|---|---|---|
| Words.WrappedComparisonDomain | app/src/main/cpp/util.c:31-34 | 32-bit differences give the same answer as unbounded ones exactly when the signed views of the two words are less than 2^31 apart |
| Words.WrappedIsSignedOrder | app/src/main/cpp/util.c:31-37 | with 32-bit differences the comparison is the signed order, except that a difference of 2^31-1 counts as greater |
| Words.CompareOrdersWindow | app/src/main/cpp/util.c:26-38 | for both kinds of subtraction: positions less than 2^31-1 apart compare as the integers they stand for, except exactly when differences wrap and the words lie across 2^31 |
| Words.CompareOddDistance | app/src/main/cpp/util.c:31-34 | for both kinds the bound is tight: at distance 2^31-1 the order is lost |
| TcpQueue.WindowOrder | app/src/main/cpp/util.c:26-38 | inside a window of 2^31-1 the comparison is the order of distance from the window base, except exactly when differences wrap and the words lie across 2^31 |
| TcpQueue.Scan | app/src/main/cpp/tcp.c:922-927 | the scan passes exactly the leading segments that compare before the offered number |
| TcpQueue.ScanSplitsByPosition | app/src/main/cpp/tcp.c:922-927 | in an ordered queue without a number that a wrapped difference takes wrongly, the scan stops at the first segment not before the offered position |
| TcpQueue.EnqueueKeepsOrder | app/src/main/cpp/tcp.c:916-965 | under the same condition the queue stays strictly increasing and free of duplicates, every other segment is unchanged, nothing else appears, and the offered position holds at least the offered bytes, with length and data of the older segment as the code leaves them |
| TcpQueue.EnqueueInWindow | app/src/main/cpp/tcp.c:916-965 | the same for a queue inside one window, order measured from the window base, data never shorter than the recorded length |
| TcpAccounting.WriteRstKeeps | app/src/main/cpp/tcp.c:1076-1086 | a reset keeps the accounting and the socket: in LISTEN it counts the SYN and stops in CLOSING |
| TcpAccounting.HandleFlagsKeeps | app/src/main/cpp/tcp.c:802-895 | FIN, ACK, repeated FIN, keep-alive, old and future acknowledgements all keep the accounting, and the state never goes back; what each of them does is in TcpPackets |
| TcpAccounting.ArriveKeeps | app/src/main/cpp/tcp.c:717-906 | every packet for a known session keeps the invariant and the socket |
| TcpAccounting.ForwardCounts | app/src/main/cpp/tcp.c:300-358 | the forward loop moves remote_seq by exactly the bytes it counts and changes only queue, remote_seq and log |
| TcpAccounting.StepKeeps | app/src/main/cpp/tcp.c:196-453 | every event on a session keeps the invariant, closes at most its own socket and never lowers the rank of the state |
| TcpAccounting.SequenceAccounting | app/src/main/cpp/tcp.c:113-118 | over every run outside port 443: remote_seq is its start + SYN + bytes forwarded + FIN, local_seq its start + SYN + bytes relayed + FIN modulo 2^32, each SYN and FIN counted at most once |
| TcpAccounting.RunKeeps | app/src/main/cpp/tcp.c:51-88 | over every run the invariant holds, states after the close have no socket, and outside port 443 the rank of the state never decreases |
| TcpAccounting.TwoChecksRemove | app/src/main/cpp/tcp.c:51-88 | a session without events is closed by the first check past its idle timeout and removed by a later check exactly when TCP_KEEP_TIMEOUT has passed |
| TcpAccounting.EarlyCheckKeeps | app/src/main/cpp/tcp.c:51-88 | a check before the timeout changes nothing |
| TcpPackets.PacketStamps | app/src/main/cpp/tcp.c:782-783 | every packet a live session handles refreshes the idle time and the scaled window of the peer, and changes neither socket, local_seq, receive window nor the bytes relayed either way |
| TcpPackets.ClosedAnswersReset | app/src/main/cpp/tcp.c:771-774 | a packet for a closing or closed session is answered with a reset and changes neither queue nor numbers |
| TcpPackets.UrgentIgnored | app/src/main/cpp/tcp.c:582-584 | an urgent packet changes nothing |
| TcpPackets.RefusedDataResets | app/src/main/cpp/tcp.c:788-798 | data without a socket or after the peer's FIN is answered with a reset and is not queued |
| TcpPackets.DataIsQueued | app/src/main/cpp/tcp.c:788-800 | other data that does not compare behind remote_seq is queued: some segment with its number then holds at least as many bytes, and no segment of another number is lost; data behind remote_seq changes no segment |
| TcpPackets.RstCloses | app/src/main/cpp/tcp.c:802-807 | RST takes a live session to CLOSING without an answer, whatever it acknowledges |
| TcpPackets.SynOrNoFlags | app/src/main/cpp/tcp.c:810-813 | a repeated SYN, and a packet without RST, FIN and ACK, change neither state nor numbers and are not answered |
| TcpPackets.FinInEstablished | app/src/main/cpp/tcp.c:815-822 | FIN in ESTABLISHED with an empty queue is counted and acknowledged (ack set, ackno = remote_seq + 1) and takes the session to CLOSE_WAIT; with something queued it takes it there without an answer or a count |
| TcpPackets.FinInFinWait | app/src/main/cpp/tcp.c:826-830 | FIN in FIN_WAIT1 is counted and acknowledged and takes the session to CLOSE |
| TcpPackets.OtherFinIgnored | app/src/main/cpp/tcp.c:823-834 | a repeated FIN, or one in another state, changes nothing |
| TcpPackets.AckMovesState | app/src/main/cpp/tcp.c:836-854 | an acknowledgement of everything sent moves acked to local_seq, SYN_RECV to ESTABLISHED and LAST_ACK to CLOSING, and no other state |
| TcpPackets.OtherAck | app/src/main/cpp/tcp.c:859-894 | another acknowledgement is a keep-alive, an old one (which moves acked only forward in the comparison), or a future one, which is answered with a reset |
| TcpEvents.SynOpensSession | app/src/main/cpp/tcp.c:620-693 | the fields of the session a SYN opens: LISTEN, remote_seq at its number, local_seq at the chosen one, its data queued, the receive window measured |
| TcpEvents.SynAnswered | app/src/main/cpp/tcp.c:286-293 | the connected socket answers the SYN with SYN and ACK of its number + 1 and moves to SYN_RECV |
| TcpEvents.ConnectRequested | app/src/main/cpp/tcp.c:732-745 | the first packet of a port-443 session asks the proxy to connect, or resets; no later one does |
| TcpEvents.ConnectAnswered | app/src/main/cpp/tcp.c:267-285 | the proxy's answer takes a port-443 session to SYN_RECV exactly if its first twelve bytes are accepted, and resets it otherwise |
| TcpEvents.AcceptedReplies | app/src/main/cpp/tcp.c:277 | accepted are exactly the texts HTTP/1.0 200 and HTTP/1.1 200 |
| TcpEvents.ErrorResets | app/src/main/cpp/tcp.c:220-262 | a socket error resets the session and keeps its queue |
| TcpEvents.DrainsWhileTaken | app/src/main/cpp/tcp.c:300-358 | while whole segments leave, the loop goes on until the forward guard fails for the room that is left |
| TcpEvents.PatchedRequestLeaves | app/src/main/cpp/tcp.c:307-357 | a request to port 80 leaves as rewritten, and at most the rest of its segment is counted |
| TcpEvents.ForwardingIsAcknowledged | app/src/main/cpp/tcp.c:372-388 | after forwarding, or when a shut window opens, the app is sent an acknowledgement, which covers a FIN that waited for the queue to drain |
| TcpEvents.ReadsWhenOpen | app/src/main/cpp/tcp.c:390-402 | only an open session with an open window reads, at most the window and the segment size |
| TcpEvents.DataIsRelayed | app/src/main/cpp/tcp.c:435-443 | what was read goes to the app under local_seq, which moves by its length if the write succeeds; a failed write closes the session |
| TcpEvents.EndIsRelayed | app/src/main/cpp/tcp.c:409-433 | the end of the stream is a counted FIN to the app if nothing is queued and a reset otherwise; the socket is closed either way |
| TcpEvents.BrokenReadResets | app/src/main/cpp/tcp.c:402-408 | any other failure of recv() resets the session and keeps the socket for the check |
| TcpEvents.KeepsAlive | app/src/main/cpp/tcp.c:105-119 | with its window shut a session acknowledges one byte less, at most every 100 ms, and keeps its numbers |
| TcpEvents.WaitsFor | app/src/main/cpp/tcp.c:91-143 | the events a session waits for in every state, and that a refusal by epoll closes it |
| TcpEvents.ShortenedByLoad | app/src/main/cpp/tcp.c:26-27 | a timeout loses the whole percentage of sessions in use, rounded down to seconds |
| TcpEvents.OverloadedTimeout | app/src/main/cpp/tcp.c:26-27 | beyond the maximum load the timeout is not positive |
| TcpEvents.TimeoutInSeconds | app/src/main/cpp/tcp.c:17-30 | the timeouts of all states in seconds: an hour in ESTABLISHED, 30 seconds otherwise, shortened by load |
| TcpEvents.IdleSessionCloses | app/src/main/cpp/tcp.c:51-76 | an idle session past its timeout is reset, or closed silently in LISTEN, and gives up its socket |
| TcpEvents.ClosedSessionLingers | app/src/main/cpp/tcp.c:78-88 | a closed session is removed exactly when 300 seconds have passed |
| TcpEvents.FinAcknowledged | app/src/main/cpp/tcp.c:815-822 | over every run from the SYN outside port 443: in CLOSE_WAIT with an empty queue, and in LAST_ACK, the FIN was counted once and the app was sent an acknowledgement that covers it |
| TcpStream.QueueKeepsStream | app/src/main/cpp/tcp.c:912-966 | a segment of the peer's stream, in any order, duplicated or overlapping, leaves an ordered queue of slices of that stream, if no number compared is taken wrongly by a wrapped difference |
| TcpStream.SendKeepsStream | app/src/main/cpp/tcp.c:309-357 | one send call extends what went upstream by the stream's next bytes, or loses exactly what it counts |
| TcpStream.ForwardLosesIff | app/src/main/cpp/tcp.c:300-358 | the forward loop loses bytes if and only if a send it makes fails with bytes left to send |
| TcpStream.StepKeepsStream | app/src/main/cpp/tcp.c:196-453 | every event keeps queue and upstream bytes placed in the peer's stream, under the same condition on its packet, and loses bytes if and only if one of its sends fails with bytes left |
| TcpStream.Reassembly | app/src/main/cpp/tcp.c:300-358 | streams of any length: from a SYN without data on, over every interleaving of segments, partial sends and timers in which no number compared is taken wrongly by a wrapped difference, the queue is in order and the bytes handed upstream are the peer's stream up to remote_seq if and only if no send the loop makes in the run fails with bytes left to send |
| TcpShort.HeadIsNextByte | app/src/main/cpp/tcp.c:300-303 | whatever the order of the queue, a head that passes the forward guard starts with the stream's next byte |
| TcpShort.StepKeepsShort | app/src/main/cpp/tcp.c:196-453 | every event keeps the queue made of slices of the stream and the upstream bytes its beginning, whatever the comparison answers |
| TcpShort.ShortReassembly | app/src/main/cpp/tcp.c:300-358 | streams below 2^32-1 bytes, both kinds of subtraction, packets of the stream in any order and however late: the bytes handed upstream are the stream up to remote_seq if and only if no send the loop makes fails with bytes left to send |
| TcpStream.FailedSendIsAcknowledged | app/src/main/cpp/tcp.c:319-345 | after a failed send the rest of the head never reaches the socket, yet the app is sent an acknowledgement for it |
| TcpProgress.StepTidy | app/src/main/cpp/tcp.c:196-453 | packets that do not cut into queued segments, nor are taken wrongly by a wrapped difference, keep the queue free of overlaps, each segment ahead of remote_seq or sent exactly up to it |
| TcpProgress.HeadIsNext | app/src/main/cpp/tcp.c:300-303 | in such a queue the byte at remote_seq is queued if and only if the head passes the forward guard's equality |
| TcpProgress.NextByteMoves | app/src/main/cpp/tcp.c:300-358 | over every run of such packets: whenever the byte at remote_seq is queued, the session asks for writability if the socket has room for the rest of the head, and a writable event whose send takes anything moves remote_seq |
| TcpWindow.SendWindowMeaning | app/src/main/cpp/tcp.c:145-150 | for a live session the window is what is left of send_window beyond the bytes in flight, but 0 exactly when a wrapped difference takes acked for newer than local_seq |
| TcpWindow.OldAckAccepted | app/src/main/cpp/tcp.c:874-886 | for both kinds of subtraction the exact words for which an acknowledgement older than acked is taken |
| TcpWindow.AckNeverMovesBack | app/src/main/cpp/tcp.c:859-894 | for both kinds acked does not move back if and only if the acknowledgement is not one of these |
| TcpWindow.OddAckMovesBack | app/src/main/cpp/tcp.c:874-886 | those move acked back by 2^31-1 |
| TcpWindow.ReadDataWindow | app/src/main/cpp/tcp.c:394-443 | data is relayed only within the window: afterwards local_seq - acked <= send_window |
| TcpWindow.ReadEofWindow | app/src/main/cpp/tcp.c:409-433 | so is a FIN |
| TcpWindow.StepKeepsWindow | app/src/main/cpp/tcp.c:783-894 | over every step that does not handle one of these, acked stays at or behind local_seq, does not move back, and new bytes stay inside the window |
| TcpWindow.NeverBeyondEdge | app/src/main/cpp/tcp.c:394-442 | over every run without these local_seq never exceeds the largest right edge that was in force, acked plus send_window |
| TcpWindow.SendWindowSafety | app/src/main/cpp/tcp.c:394-442 | the same from the moment a session is established |
| TcpWindow.RunKeepsAcked | app/src/main/cpp/tcp.c:837-886 | over every run of a live session without these acked is at most local_seq and never moves back |
| TcpWindow.EdgeIsGrantedIff | app/src/main/cpp/tcp.c:783-886 | the edge in force after a packet, with data or without, is one it granted exactly when its acknowledgement is not older than acked |
| TcpGranted.PacketEdge | app/src/main/cpp/tcp.c:783-886 | every packet a live session handles: with a current acknowledgement the edge is at most the one it grants, otherwise its window counts from acked |
| TcpGranted.RunWithin | app/src/main/cpp/tcp.c:394-442 | over every run: every packet is covered if and only if local_seq never exceeds the largest granted edge, in the run or in a continuation without packets |
| TcpGranted.GrantedWindowSafety | app/src/main/cpp/tcp.c:394-442 | the same from the SYN on, for the right edges the app granted (acknowledgement plus scaled window) |
| TcpGranted.UncoveredPasses | app/src/main/cpp/tcp.c:394-442 | after any packet that is not covered, reading on sends past every edge granted |
| TcpGranted.FreshWindowSafety | app/src/main/cpp/tcp.c:394-442 | in particular over every run from the SYN on in which no packet acknowledges less than an earlier one |
| TcpGranted.OvertakenAckPassesEveryGrant | app/src/main/cpp/tcp.c:784 | a run in which one overtaken acknowledgement lets local_seq pass every granted edge by ten bytes |
| TcpWindow.KeepAliveAck | app/src/main/cpp/tcp.c:860-861 | a keep-alive acknowledges one byte less than everything sent |
| TcpWindow.NewSessionWindow | app/src/main/cpp/tcp.c:627-634 | a new session with a window scale up to 14 starts inside the window invariant |
| TcpWrapped.NewerAckTakenIff | app/src/main/cpp/tcp.c:859-894 | an acknowledgement of some new bytes (neither of all nor of all but the last) is taken over unbounded differences; over wrapped ones it is taken exactly when the signed views of acked, ackno and local_seq are in order, resets the session exactly when ackno lies across 2^31 from local_seq, and is ignored otherwise |
| TcpWrapped.DropsWhatIsBehindIff | app/src/main/cpp/tcp.c:917-921 | a segment is dropped rightly exactly unless differences wrap and its number and remote_seq lie across 2^31 |
| TcpWrapped.EnqueueAgreesIff | app/src/main/cpp/tcp.c:916-965 | with wrapped differences a segment ends up where it belongs exactly when no segment the scan compares lies across 2^31 from it |
| TcpWrapped.StepIntended | app/src/main/cpp/util.c:26-38 | a step that compares no two numbers across 2^31 is possible and has the same effect over unbounded differences |
| TcpWrapped.RunIntended | app/src/main/cpp/util.c:26-38 | so is every run in which none are compared |
| TcpWrapped.HeadOvertaken | app/src/main/cpp/tcp.c:922-945 | a run from the SYN of consecutive segments after which a head sent past 2^31 stands behind the next segment: the next byte is queued and the forward guard fails whatever the room |
| TcpReceive.ReceiveWindowRoom | app/src/main/cpp/tcp.c:174-194 | a non-zero window plus the queued bytes fits the socket buffer and the scaled maximum exactly when fewer than 2^32 bytes are queued; that it is the largest such window is TcpReceive.ReceiveWindowMaximal |
| TcpReceive.ReceiveBufferRoom | app/src/main/cpp/tcp.c:152-172 | the room is half the socket's send buffer (16384 by default) less what is unsent, never negative, and 0 without a socket |
| TcpReceive.ReceiveWindowMaximal | app/src/main/cpp/tcp.c:174-194 | no larger window would do: every w of at least one scale unit that leaves room for all that is queued, in the buffer and in a header, is at most the window offered |
| TcpReceive.EmptyQueueWindow | app/src/main/cpp/tcp.c:183-193 | with nothing queued the window is the buffer's room up to 0xFFFF scale units, or 0 if that is below one unit |
| TcpReceive.OverfullQueue | app/src/main/cpp/tcp.c:174-194 | 65538 full segments wrap the sum, and a window is offered beyond any buffer |
| TcpReceive.HeaderWindow | app/src/main/cpp/tcp.c:1173 | the header value fits 16 bits, loses less than one scale unit and is zero only for a zero window (scale up to 14) |
| TcpReceive.DisjointFits | app/src/main/cpp/tcp.c:174-181 | a queue of disjoint segments inside the sequence window holds fewer than 2^32 bytes |
| TcpReceive.ForwardWithinBuffer | app/src/main/cpp/tcp.c:299-358 | one forward pass counts less than the buffer measured at its start and hands over no more than it counts |
| TcpReceive.RelayInOrder | app/src/main/cpp/tcp.c:390-446 | over every run of a connection whose packets are in order so far the app is sent exactly the bytes read upstream, in order, each packet numbered by its first byte |
| TcpReceive.RelayFromSyn | app/src/main/cpp/tcp.c:390-446 | so from the SYN on, over every run outside port 443, numbers counted from the session's initial sequence number |
| TcpReceive.NumberedAt | app/src/main/cpp/tcp.c:1059-1066 | read packet by packet: the number is start + 1 + bytes relayed before |
| TcpSession.Session.constructor | app/src/main/cpp/tcp.c:620-693 | the object a SYN registers is the model's new connection |
| TcpSession.Session.WriteRst | app/src/main/cpp/tcp.c:1076-1086 | the object takes the model's reset step |
| TcpSession.Session.ReceiveWindow | app/src/main/cpp/tcp.c:174-194 | the loop over the queue computes the receive window, bounded and maximal by the lemmas of TcpReceive |
| TcpSession.Session.SendWindow | app/src/main/cpp/tcp.c:145-150 | for a live session the result is the room between local_seq and the right edge in force, and 0 if there is none or a wrapped difference takes acked for newer than local_seq |
| TcpSession.Session.FindPosition | app/src/main/cpp/tcp.c:922-927 | the walk along the queue finds the scan position |
| TcpSession.Session.QueueTcp | app/src/main/cpp/tcp.c:912-966 | splicing or replacing in place gives the model's queue |
| TcpSession.Session.HandleTcp | app/src/main/cpp/tcp.c:717-906 | handle_tcp on fields takes the model's step, which TcpPackets describes packet by packet |
| TcpSession.Session.ForwardPending | app/src/main/cpp/tcp.c:300-358 | the forward loop takes the model's steps and reports whether anything was sent |
| TcpSession.Session.Acknowledge | app/src/main/cpp/tcp.c:372-388 | window update and acknowledgement |
| TcpSession.Session.ReadSocket | app/src/main/cpp/tcp.c:390-446 | the read and EOF part |
| TcpSession.Session.FinishConnect | app/src/main/cpp/tcp.c:286-293 | the answer to the SYN |
| TcpSession.Session.ReadReply | app/src/main/cpp/tcp.c:267-285 | the proxy's answer on port 443 |
| TcpSession.Session.CheckTcpSocket | app/src/main/cpp/tcp.c:196-453 | check_tcp_socket as a whole |
| TcpSession.Session.MonitorTcpSession | app/src/main/cpp/tcp.c:91-143 | monitor_tcp_session with keep-alive and re-arming |
| TcpSession.Session.CheckTcpSession | app/src/main/cpp/tcp.c:32-89 | check_tcp_session; the result asks for removal |
| SessionTable.TimeoutBounds | app/src/main/cpp/tcp.c:17-30 | up to the maximum load a timeout lies between 0 and its base and only shrinks as the load grows |
| SessionTable.TimeoutsInSeconds | app/src/main/cpp/udp.c:7-15 | every session's timeout in seconds by kind, port and state, shortened by load |
| SessionTable.UdpCheck | app/src/main/cpp/udp.c:17-64 | a UDP session in time is left alone; out of time, or finished, it closes its socket and lingers for 60 seconds |
| SessionTable.IcmpCheck | app/src/main/cpp/icmp.c:16-44 | an ICMP session that stopped or is out of time is closed and removed at once, any other left alone |
| SessionTable.TcpCheck | app/src/main/cpp/tcp.c:32-89 | a TCP session in time is left alone; out of time or closing, it closes its socket if it has one and lingers for 300 seconds |
| SessionTable.LiveAfterCheck | app/src/main/cpp/session.c:127-151 | a session that is live after its check was in time and is unchanged |
| SessionTable.PassKeepsSurvivors | app/src/main/cpp/session.c:122-168 | a pass leaves exactly the sessions whose check returned 0, each as checked, in their order |
| SessionTable.WaitIsEarliest | app/src/main/cpp/session.c:129-150 | the chosen wait is the smaller of the bound and the time until the first surviving live session is expirable |
| SessionTable.SleepIsExact | app/src/main/cpp/session.c:122-168 | no surviving live session passes its deadline while the loop waits, and if one cut the wait short it is expirable exactly when the wait ends |
| SessionFds.ClosedOncePerOpen | app/src/main/cpp/session.c:15-28 | in a lawful history a descriptor was closed once for each time it was opened, not counting an open one |
| SessionFds.PassKeeps | app/src/main/cpp/session.c:122-168 | replacing and unlinking session by session keeps descriptor ownership |
| SessionFds.TcpPacketKeeps | app/src/main/cpp/tcp.c:501-692 | handle_tcp, with a socket opened or refused, keeps ownership |
| SessionFds.UdpPacketKeeps | app/src/main/cpp/udp.c:204-366 | handle_udp keeps ownership |
| SessionFds.IcmpPacketKeeps | app/src/main/cpp/icmp.c:131-268 | handle_icmp keeps ownership |
| SessionFds.CheckIsSane | app/src/main/cpp/udp.c:39-61 | a check closes at most the session's own socket, and removal leaves none open |
| SessionFds.CheckAllowedKeeps | app/src/main/cpp/session.c:286-356 | terminating every session and unlinking blocked ones keeps ownership |
| SessionFds.TableStepKeeps | app/src/main/cpp/session.c:30-284 | every event of the loop keeps ownership |
| SessionFds.OpenFdsAreOwned | app/src/main/cpp/session.c:122-168 | over every run the open descriptors are exactly the non-negative sockets of the list, all distinct, and no close hits a descriptor that is not open |
| SessionFds.ClearBalances | app/src/main/cpp/session.c:15-28 | after clear() every descriptor was closed exactly as often as it was opened |
| SessionPackets.TcpPacketReachesSession | app/src/main/cpp/tcp.c:530-540 | a packet whose version, addresses and ports are those of a listed TCP session opens nothing and changes only the first such session, by handle_tcp's step |
| SessionPackets.TcpPacketOfNoSession | app/src/main/cpp/tcp.c:586-693 | a packet of no session changes nothing unless it is a SYN for which a socket was opened; then it puts one session with its key in front |
| SessionPackets.UdpPacketReachesSession | app/src/main/cpp/udp.c:217-247 | the same for a datagram, which a session that is no longer active ignores |
| SessionPackets.UdpPacketOfNoSession | app/src/main/cpp/udp.c:249-366 | a datagram of no session opens one, if a socket was opened |
| SessionPackets.IcmpPacketReachesSession | app/src/main/cpp/icmp.c:155-166 | the same for an echo, by version and addresses of a session that did not stop |
| SessionPackets.IcmpPacketOfNoSession | app/src/main/cpp/icmp.c:168-268 | an echo of no session opens one |
| SessionPackets.UdpAnswer | app/src/main/cpp/udp.c:66-130 | an answer keeps a UDP session going, except on port 53, where the first one finishes it, as do errors and the end |
| SessionPackets.IcmpAnswer | app/src/main/cpp/icmp.c:46-129 | an answer keeps an ICMP session going; errors, the end and failed writes stop it |
| SessionPackets.RulesEndSessions | app/src/main/cpp/session.c:286-356 | changed rules stop every ICMP session, finish the active UDP ones, reset the live TCP ones and remove just the blocked UDP ones |
| SessionPackets.PacketsReachTheirSession | app/src/main/cpp/session.c:30-284 | over every run a packet with the key of a listed TCP session is handled by that session, wherever it stands and whatever its state, and changes no other, because no two TCP or UDP sessions share a key |
| EventLoop.Loop.CountSessions | app/src/main/cpp/session.c:90-116 | the counters sum to the number of live sessions, every TCP session with a socket has taken its monitoring step, and a recheck is asked for exactly when one of them has a shut window or data it cannot forward |
| EventLoop.NoRecheckNoStall | app/src/main/cpp/session.c:90-116 | an open session needs no recheck if and only if it is watched for reading, and for writing exactly when something is queued |
| EventLoop.WatchedEvents | app/src/main/cpp/tcp.c:91-143 | after the first loop every TCP session with a socket waits for the events of its state, window and queue, and every other session is as it was |
| EventLoop.Loop.CheckSessions | app/src/main/cpp/session.c:122-168 | the loop that unlinks while iterating computes the pass: list, wait and closes |
| EventLoop.TightenWait | app/src/main/cpp/session.c:129-134 | the wait is cut short only for a live session, exactly to the second at which it becomes expirable, and never runs past the deadline of a live session in time |
| EventLoop.Loop.TerminateAll | app/src/main/cpp/session.c:286-356 | the loop of check_allowed |
| EventLoop.Loop.Clear | app/src/main/cpp/session.c:15-28 | the loop of clear(): what is open is closed, in list order |
| EventLoop.Loop.HandleTcp | app/src/main/cpp/tcp.c:530-693 | the search finds the first session with the packet's key, if there is one; then create or hand over |
| EventLoop.Loop.HandleUdp | app/src/main/cpp/udp.c:217-366 | search, ignore, create or refresh |
| EventLoop.Loop.HandleIcmp | app/src/main/cpp/icmp.c:131-268 | search, create or refresh |
| Relay.ForwardKeeps | app/src/main/java/tun/proxy/tunnel/Tunnel.java:124-147 | forwarding a read keeps the balance of the pair; the leftover buffer it may fill was empty |
| Relay.WritableKeeps | app/src/main/java/tun/proxy/tunnel/Tunnel.java:149-163 | sending leftover keeps the balance; that the brother then waits to read is RelayFlow.WriteResumes |
| Relay.StepKeeps | app/src/main/java/tun/proxy/tunnel/Tunnel.java:76-163 | every event on either channel keeps conservation, back-pressure and handshake |
| Relay.Conservation | app/src/main/java/tun/proxy/tunnel/Tunnel.java:76-163 | over every run: bytes taken plus leftover are the whole CONNECT request, if any, followed by exactly what was read from the brother after establishment, in order; after disposal what was taken is a prefix of that; until the tunnel is established nothing was read from the app; the ten-byte header split does not matter |
| Relay.LeftoverNeverOverwritten | app/src/main/java/tun/proxy/tunnel/Tunnel.java:85-96 | whoever reads has a brother without leftover, so the buffer is never overwritten |
| Relay.SplitRequestDisposes | app/src/main/java/tun/proxy/tunnel/Tunnel.java:149-162 | a CONNECT request sent in several writes ends in disposal of both sides |
| Relay.AnswerIsOwn | app/src/main/java/tun/proxy/tunnel/httpconnect/HttpConnectTunnel.java:62-76 | a read of at least twelve bytes is judged by its own bytes |
| Relay.AnswerDecidedIff | app/src/main/java/tun/proxy/tunnel/httpconnect/HttpConnectTunnel.java:62-76 | whether the read passes depends on the read alone, as the proxy's 200 in its first twelve bytes, exactly unless it is a proper part of a 200 |
| Relay.ClearRunIff | app/src/main/java/tun/proxy/tunnel/httpconnect/HttpConnectTunnel.java:62-76 | no read of a run is judged by old bytes if and only if what was read before establishment is not such a part |
| Relay.ProxyAnsweredFirst | app/src/main/java/tun/proxy/tunnel/Tunnel.java:102-147 | over every such run nothing was read from the app unless the proxy had sent HTTP/1.x 200 |
| Relay.AmbiguousAnswerOpens | app/src/main/java/tun/proxy/tunnel/httpconnect/HttpConnectTunnel.java:66-75 | every non-empty proper part of a 200 has a run that reads from the app without a 200 |
| Relay.EstablishedMeansOneWrite | app/src/main/java/tun/proxy/tunnel/Tunnel.java:108-163 | over every run an established CONNECT tunnel sent its whole request in the write of its connect step |
| RelayFlow.SentTotal | app/src/main/java/tun/proxy/tunnel/httpconnect/HttpConnectTunnel.java:36-59 | an isolating CONNECT tunnel gives its channel exactly the first ten bytes of a longer GET or POST first, any other tunnel everything at once, and what leaves is what the write calls take up to the first that takes nothing |
| RelayFlow.AcceptsText | app/src/main/java/tun/proxy/tunnel/httpconnect/HttpConnectTunnel.java:62-76 | the proxy's answer in letters: HTTP/1, any byte but a line break, 0 or 1, a blank and 200 |
| RelayFlow.OverlayAt | app/src/main/java/tun/proxy/tunnel/Tunnel.java:124-130 | the shared array holds what was read and behind it what it held before |
| RelayFlow.SelectArms | app/src/main/java/tun/proxy/core/TcpProxyServer.java:67-87 | after a select exactly the registered keys of live sides may be dispatched, for their interest, and no key is cancelled |
| RelayFlow.RawConnects | app/src/main/java/tun/proxy/tunnel/Tunnel.java:102-122 | a raw tunnel is up once it is connected and both sides wait to read; a failed connection ends both |
| RelayFlow.ConnectRequests | app/src/main/java/tun/proxy/tunnel/httpconnect/HttpConnectTunnel.java:21-34 | a CONNECT tunnel hands over its request; sent whole it waits for the answer, otherwise it waits to write the rest; no connection, an exception or a request beyond the buffer ends the pair |
| RelayFlow.AnswerOpens | app/src/main/java/tun/proxy/tunnel/httpconnect/HttpConnectTunnel.java:62-76 | an accepted answer brings the tunnel up and both sides wait to read, nothing of the read reaching the app; any other ends the pair |
| RelayFlow.ReadForwards | app/src/main/java/tun/proxy/tunnel/Tunnel.java:124-147 | what is read goes to the brother; taken whole, both keys stay as they are, otherwise the reader stops and the brother waits to write the rest; the pair ends exactly on an exception of the channel, or when the brother cannot take all after being stopped itself in the same round |
| RelayFlow.WriteResumes | app/src/main/java/tun/proxy/tunnel/Tunnel.java:149-163 | in a pair that is up, when all leftover is sent the brother waits to read and this side's key is cancelled, otherwise it waits on; the pair ends exactly on an exception of the channel |
| RelayFlow.CloseEnds | app/src/main/java/tun/proxy/tunnel/Tunnel.java:140-146 | a closed connection ends both sides |
| RelayFlow.DisposedTogether | app/src/main/java/tun/proxy/tunnel/Tunnel.java:165-191 | over every run: when one side is disposed both are, their leftover is gone and their keys are off the selector, and nothing happens to them any more |
| RelayFlow.SomeoneListens | app/src/main/java/tun/proxy/tunnel/Tunnel.java:102-163 | over every run a pair that is up and not given up has a side that waits to read or to write |
| RelayFlow.DrainedResumes | app/src/main/java/tun/proxy/tunnel/Tunnel.java:149-155 | over every run of a pair that is up, sending the last of the leftover leaves the brother waiting to read |
| RelayFlow.SilentIff | app/src/main/java/tun/proxy/tunnel/Tunnel.java:124-163 | in every pair a run has brought up, a side is never read again, whatever follows, if and only if it is silent: its leftover has displaced its interest in reading, or its key is gone while its brother has nothing left over |
| RelayFlow.PressureSilences | app/src/main/java/tun/proxy/tunnel/Tunnel.java:85-96 | once a side's channel could not take all, nothing is ever read from that side from the next select on |
| TunnelObjects.Tunnel.WriteLoop | app/src/main/java/tun/proxy/tunnel/Tunnel.java:76-83 | the write loop stops at the first call that takes nothing and counts what left |
| TunnelObjects.Tunnel.BeforeSend | app/src/main/java/tun/proxy/tunnel/httpconnect/HttpConnectTunnel.java:36-59 | at most ten bytes of a request header leave on their own |
| TunnelObjects.Tunnel.KeepRest | app/src/main/java/tun/proxy/tunnel/Tunnel.java:85-96 | the rest goes into the leftover buffer and the channel waits for writing |
| TunnelObjects.Tunnel.OnConnected | app/src/main/java/tun/proxy/tunnel/httpconnect/HttpConnectTunnel.java:21-34 | the CONNECT request is sent or kept |
| TunnelObjects.Tunnel.OnReceived | app/src/main/java/tun/proxy/tunnel/Tunnel.java:124-146 | the objects take the model's read step on both sides |
| TunnelObjects.Tunnel.OnReadable | app/src/main/java/tun/proxy/tunnel/Tunnel.java:124-147 | with disposal of both sides on an exception |
| TunnelObjects.Tunnel.OnWritable | app/src/main/java/tun/proxy/tunnel/Tunnel.java:149-163 | the objects take the model's write step, which starts the brother again when all leftover is gone |
| TunnelObjects.Tunnel.OnConnectable | app/src/main/java/tun/proxy/tunnel/Tunnel.java:108-122 | the objects take the model's connect step |
| TunnelObjects.Tunnel.DisposeInternal | app/src/main/java/tun/proxy/tunnel/Tunnel.java:169-191 | a side is disposed once and disposes its brother |
| Layout.IntRoundTrip | app/src/main/java/tun/proxy/tcpip/CommonMethods.java:39-61 | a stored int reads back and nothing else changes |
| Layout.StoreShort | app/src/main/java/tun/proxy/tcpip/CommonMethods.java:58-61 | writeShort in the array |
| Layout.StoreInt | app/src/main/java/tun/proxy/tcpip/CommonMethods.java:51-56 | writeInt in the array |
| Checksum.FoldResidue | app/src/main/cpp/util.c:19-21 | folding keeps the value modulo 0xFFFF, and only zero folds to zero |
| Checksum.NoOverflow | app/src/main/cpp/util.c:7-24 | up to 2^17 bytes the 32-bit sum does not overflow |
| Checksum.FoldedOrdersSwap | app/src/main/java/tun/proxy/tcpip/CommonMethods.java:92-111 | for every byte sequence the folded little-endian sum is the byte swap of the folded big-endian sum (section 2(B) of RFC 1071) |
| Checksum.ByteOrderIndependent | app/src/main/cpp/util.c:7-24 | the C checksum is the byte swap of the folded Java sum exactly when the sum fits 32 bits |
| Checksum.ChainedChecksum | app/src/main/cpp/tcp.c:1191-1195 | a call over an even number of bytes followed by another equals one call over both |
| Checksum.OddChainDiffers | app/src/main/cpp/util.c:7-24 | with an odd first part it does not |
| Checksum.StoredChecksumVerifies | app/src/main/cpp/tcp.c:1120-1131 | storing the complement in the zeroed field makes the whole fold to 0xFFFF in either engine |
| Checksum.CalcChecksumLoop | app/src/main/cpp/util.c:7-24 | the C loop computes the checksum and its folding ends |
| Checksum.GetSum | app/src/main/java/tun/proxy/tcpip/CommonMethods.java:99-111 | the Java loop sums big-endian words |
| Checksum.ChecksumLoop | app/src/main/java/tun/proxy/tcpip/CommonMethods.java:92-97 | sum, fold, complement |
| Checksum.SealSegment | app/src/main/cpp/tcp.c:1191-1195 | chained over pseudo header, header, options and data and stored in place, the checksum verifies at the receiver |
| NatPacket.IpSealValid | app/src/main/java/tun/proxy/tcpip/CommonMethods.java:114-121 | the stored IP checksum makes the header fold to 0xFFFF |
| NatPacket.SealValid | app/src/main/java/tun/proxy/tcpip/CommonMethods.java:114-142 | both checksums of a well-formed packet verify and only the check fields changed |
| NatPacket.FieldsStand | app/src/main/java/tun/proxy/tcpip/IPHeader.java:10-20 | lengths, addresses, ports and data size are read where RFC 791 and RFC 793 put them, most significant byte first |
| Nat.PutGet | app/src/main/java/tun/proxy/core/NatSessionManager.java:14-20 | the sorted array answers as a map and stays sorted |
| Nat.UnexpiredGet | app/src/main/java/tun/proxy/core/NatSessionManager.java:26-34 | a sweep keeps an entry if and only if its last use is at most 60,000,000,000 ns ago |
| Nat.RunRemembers | app/src/main/java/tun/proxy/core/NatSessionManager.java:14-55 | in every run a session found for a port is for the remote end of the most recent outbound packet from it, whatever was evicted or recreated |
| Nat.ReplyReversed | app/src/main/java/tun/proxy/core/LocalVpnService.java:242-255 | a reply is dropped or rewritten with valid checksums, and is the exact reverse of the last outbound packet if and only if it carries its remote address |
| Nat.LateReplyMixed | app/src/main/java/tun/proxy/core/LocalVpnService.java:242-255 | whenever one port talks to two remote ends in turn, a late reply of the first reaches the app from the address of the first and the port of the second |
| Nat.OutboundForwarded | app/src/main/java/tun/proxy/core/LocalVpnService.java:256-291 | every outbound packet reaches the local server with valid checksums, as if from the remote end, except exactly a packet without data that is the second of its session |
| Nat.RoundTrip | app/src/main/java/tun/proxy/core/LocalVpnService.java:237-293 | an answer to the forwarded packet reaches the app as the reverse of what it sent |
| Nat.CreateGet | app/src/main/java/tun/proxy/core/NatSessionManager.java:36-55 | a new session starts with no packets and no bytes; every other entry stays, unless there are more than 60 and it is idle for over a minute |
| Nat.OutboundGet | app/src/main/java/tun/proxy/core/LocalVpnService.java:258-264 | an outbound packet continues the session of its port if it has the same remote end and starts a new one otherwise |
| NatRuns.TableShows | app/src/main/java/tun/proxy/core/NatSessionManager.java:14-55 | over every run the table shows what packets, replies and lookups say: which ports have a session, for which remote end, when it was last used and how many packets went out on it |
| NatRuns.TableCountsData | app/src/main/java/tun/proxy/core/LocalVpnService.java:290-291 | and the bytes counted are the data that went out in the session, for proper packets |
| NatRuns.ReplyWrittenIff | app/src/main/java/tun/proxy/core/LocalVpnService.java:243-255 | over every run a reply reaches the app if and only if its port sent a packet and its session was not swept since: no packet that opened a session in a table of more than 60 came over a minute after the port's last packet, reply or lookup |
| NatRuns.RecentReplyWritten | app/src/main/java/tun/proxy/core/NatSessionManager.java:26-33 | so a reply reaches the app, however full the table was, if no packet of the app came more than a minute after the port's last use |
| NatRuns.SecondBareDropped | app/src/main/java/tun/proxy/core/LocalVpnService.java:266-271 | over every run a packet of the app is dropped if and only if it has no data and is the second since the port's session was opened, and written otherwise |
| NatRuns.OthersIgnored | app/src/main/java/tun/proxy/core/LocalVpnService.java:237-242 | exactly the packets that are not TCP or not from this device are ignored, and they leave the table alone |
| NatService.ComputeIPChecksum | app/src/main/java/tun/proxy/tcpip/CommonMethods.java:114-121 | in-place sealing of the IP header |
| NatService.ComputeTCPChecksum | app/src/main/java/tun/proxy/tcpip/CommonMethods.java:124-142 | in-place sealing of header and segment, or an exception when the array is too short |
| NatService.Service.GetSession | app/src/main/java/tun/proxy/core/NatSessionManager.java:14-20 | lookup that refreshes the session |
| NatService.Service.ClearExpiredSessions | app/src/main/java/tun/proxy/core/NatSessionManager.java:26-34 | the backward removal loop is the sweep, which keeps exactly the entries used in the last minute |
| NatService.Service.CreateSession | app/src/main/java/tun/proxy/core/NatSessionManager.java:36-55 | a session replaces the old one after a sweep at more than 60 sessions; every other entry used in the last minute stays |
| NatService.Service.FromLocalServer | app/src/main/java/tun/proxy/core/LocalVpnService.java:243-255 | the rewrite toward the app |
| NatService.Service.FromLocalApp | app/src/main/java/tun/proxy/core/LocalVpnService.java:256-292 | the rewrite toward the local server |
| NatService.Service.OnIPPacketReceived | app/src/main/java/tun/proxy/core/LocalVpnService.java:237-294 | packet buffer and session table change as the model's step says |
| Sni.CString | app/src/main/cpp/tls.c:47-48 | the longest NUL-free prefix |
| Sni.FindsName | app/src/main/cpp/tls.c:55-80 | every other extension is skipped and the name found |
| Sni.TlsFindsHost | app/src/main/cpp/tls.c:87-183 | for every well-formed ClientHello record, whatever follows it, the C parser returns the host cut to 255 bytes and at a NUL, and none if the record names none |
| Sni.JavaFindsHost | app/src/main/java/tun/proxy/core/HttpHostHeaderParser.java:53-114 | for every well-formed record anywhere in a buffer the Java parser returns the host whole; if the record names none it goes on behind the record as far as its count says |
| Sni.ParsersAgree | app/src/main/cpp/tls.c:32-183 | the parsers agree on a well-formed record with a host exactly when it is NUL-free and at most 255 bytes, and on one without exactly when the Java parser finds nothing behind it, as when it is given the record alone |
| Sni.KeptWhole | app/src/main/cpp/tls.c:46-48 | exactly such hosts survive the copy into the host buffer |
| Sni.StrayName | app/src/main/java/tun/proxy/core/HttpHostHeaderParser.java:89-106 | a server_name that follows a hello without one is taken for its name by the Java parser |
| Sni.FirstHostName | app/src/main/cpp/tls.c:32-53 | the C parser takes the first host_name of a list, behind any entries of other types |
| Sni.OnlyHellos | app/src/main/cpp/tls.c:87-135 | the C parser finds a name only in a complete handshake record of version 3 or later that carries a ClientHello, the Java parser only in a handshake record of more than 43 bytes |
| Sni.ParseServerNameExtension | app/src/main/cpp/tls.c:32-53 | for every input: reads stay inside the data, the loop ends, the buffer holds the name or is untouched |
| Sni.ParseExtensions | app/src/main/cpp/tls.c:55-80 | the same for the extension loop |
| Sni.ParseTlsHeader | app/src/main/cpp/tls.c:87-183 | the same for the whole record, and a reader of the C string in the buffer sees the name found |
| Sni.CopyName | app/src/main/cpp/tls.c:46-48 | strncpy and terminator leave the C string of the source and nothing behind byte 255 |
| Sni.ReadSni | app/src/main/java/tun/proxy/core/HttpHostHeaderParser.java:53-114 | getSNI's loop, exceptions included |
| FakeIp.Probe | app/src/main/java/tun/proxy/core/DnsProxy.java:138-141 | the probing loop stops at the first free address |
| FakeIp.ProbeEnds | app/src/main/java/tun/proxy/core/DnsProxy.java:138-141 | it ends exactly when fewer than 65536 addresses are in use, within 65536 rounds |
| FakeIp.GetKeeps | app/src/main/java/tun/proxy/core/DnsProxy.java:134-147 | one call keeps the maps inverse, answers with a fake address and keeps every other domain's address |
| FakeIp.FirstFree | app/src/main/java/tun/proxy/core/DnsProxy.java:137-141 | a new domain gets the first free address of 172.25.0.0/16, counting from the low half of its hash and around |
| FakeIp.HashIsPolynomial | app/src/main/java/tun/proxy/core/DnsProxy.java:137 | the hash is the polynomial in 31 of the name's characters, in 32 bits |
| FakeIp.FakeIpIsUpperHalf | app/src/main/java/tun/proxy/core/ProxyConfig.java:128-130 | isFakeIP compares the upper half of the address |
| FakeIp.AddressesIdentifyDomains | app/src/main/java/tun/proxy/core/DnsProxy.java:47-49 | over every run: the same address if and only if the same domain, and reverseLookup leads back to it |
| FakeIp.AllCallsReturn | app/src/main/java/tun/proxy/core/DnsProxy.java:134-147 | every call of a run returns if and only if it asks for at most 65536 domains |
| FakeIp.Allocator.FindFree | app/src/main/java/tun/proxy/core/DnsProxy.java:137-141 | the do-while loop with its wrapping hash finds that address |
| FakeIp.Allocator.GetOrCreateFakeIp | app/src/main/java/tun/proxy/core/DnsProxy.java:134-147 | the object takes the step and keeps the maps inverse |
| FakeIp.Allocator.ReverseLookup | app/src/main/java/tun/proxy/core/DnsProxy.java:47-49 | with inverse maps: the domain whose address it is, or none exactly when no domain has it |
| Dns.ReadName | app/src/main/java/tun/proxy/dns/DnsPacket.java:86-112 | reading always ends, pointer cycles included, and leaves the position between where it was and the limit |
| Dns.PointerCycleFails | app/src/main/java/tun/proxy/dns/DnsPacket.java:90-98 | a name that points at itself ends in an exception |
| Dns.ReadsPlain | app/src/main/java/tun/proxy/dns/DnsPacket.java:86-112 | an uncompressed name is read to its end as its dotted labels |
| Dns.PointedName | app/src/main/java/tun/proxy/dns/DnsPacket.java:90-98 | the pointer 0xC00C leads to the question's name |
| Dns.LabelsThenPointer | app/src/main/java/tun/proxy/dns/DnsPacket.java:86-112 | labels in front of a pointer come first, then the name the pointer leads to, read with a raised limit; it is an exception if that limit is beyond the array |
| Dns.LabelsThenName | app/src/main/java/tun/proxy/dns/DnsPacket.java:86-112 | so labels and a pointer to an uncompressed name read as the dotted labels and that name |
| Dns.LabelsThenEnd | app/src/main/java/tun/proxy/dns/DnsPacket.java:86-112 | without a final zero a name ends with the message: the last dot goes behind a whole label, stays behind one cut short, and a pointer cut in two is an exception |
| Dns.TakenIff | app/src/main/java/tun/proxy/dns/DnsPacket.java:14-50 | a message is taken if and only if it has at most 512 bytes, at most 2, 50, 50 and 50 records, and these can be read in turn; then each section holds as many as the header says, in order |
| Dns.ShortRefused | app/src/main/java/tun/proxy/dns/DnsPacket.java:14-17 | a message shorter than a header is refused |
| Dns.ResourceAt | app/src/main/java/tun/proxy/dns/Resource.java:25-38 | a record has as many bytes of data as its length says |
| Dns.TamperedParsesBack | app/src/main/java/tun/proxy/core/DnsProxy.java:116-132 | for every message with one question and an uncompressed name the rewritten answer parses back if and only if it is at most 512 bytes, to the same question and one answer with the question's name, the address and a time to live of at least 30 |
| Dns.DnsTtl | app/src/main/java/tun/proxy/core/ProxyConfig.java:160-165 | the time to live is the configured one, raised to 30 |
| DnsBuffer.Buffer.ReadLabel | app/src/main/java/tun/proxy/dns/DnsPacket.java:100-104 | the inner loop copies what is there of a label, and a dot |
| DnsBuffer.Buffer.ReadDomain | app/src/main/java/tun/proxy/dns/DnsPacket.java:86-112 | the loop with recursion on pointers reads the specified name or throws |
| DnsBuffer.Buffer.QuestionFromBytes | app/src/main/java/tun/proxy/dns/Question.java:22-30 | a question and its extent |
| DnsBuffer.Buffer.ResourceFromBytes | app/src/main/java/tun/proxy/dns/Resource.java:25-38 | a resource record with its data |
| DnsBuffer.PacketFromBytes | app/src/main/java/tun/proxy/dns/DnsPacket.java:14-50 | the parser with its four loops |
| DnsBuffer.TamperDnsResponse | app/src/main/java/tun/proxy/core/DnsProxy.java:116-132 | the setters write exactly the counts and the answer record |
| IpMask.IndexAgreesWithScan | app/src/main/java/tun/proxy/core/ChinaIpMaskManager.java:16-43 | for every list of records the index answers as a scan with the last mask of each network, except that mask 0 without network 0 matches everything |
| IpMask.NonZeroMasksAreExact | app/src/main/java/tun/proxy/core/ChinaIpMaskManager.java:16-43 | with non-zero masks the index answers exactly as the scan |
| IpMask.StaleMaskIsHarmless | app/src/main/java/tun/proxy/core/ChinaIpMaskManager.java:18-27 | a mask no network carries any more never changes an answer unless it is 0 |
| IpMask.LastMaskLoaded | app/src/main/java/tun/proxy/core/ChinaIpMaskManager.java:35-40 | the mask kept for a network is that of its last record |
| IpMask.Manager.IsIpInChina | app/src/main/java/tun/proxy/core/ChinaIpMaskManager.java:16-28 | the scan over masks with its flag |
| IpMask.Manager.LoadFromFile | app/src/main/java/tun/proxy/core/ChinaIpMaskManager.java:30-49 | the loop over the reads of the stream and the records in the buffer loads what the buffer holds, old bytes included |
| IpMask.WholeReadsLoadFile | app/src/main/java/tun/proxy/core/ChinaIpMaskManager.java:30-43 | when no read ends inside a record, the index is that of the records of the file, however it was cut into reads |
| IpMask.ReadsAll | app/src/main/java/tun/proxy/core/ChinaIpMaskManager.java:35-40 | a list written record by record reads back as that list |
| IpMask.FileAnswersExactly | app/src/main/java/tun/proxy/core/ChinaIpMaskManager.java:16-43 | a list without a zero mask, written to a file and read in whole records, answers for exactly the addresses a scan of the list finds |
| IpMask.CutRecordMatchesAll | app/src/main/java/tun/proxy/core/ChinaIpMaskManager.java:34-41 | one record that arrives in two reads of four bytes makes every address match |

## Left out

- TcpShort.ShortReassembly: sessions on port 443 (CONNECT resets the state) and port 80 (requests are rewritten and partial sends counted against the unpatched length) and data carried on the SYN (it starts at the SYN's own number and is never forwarded) are excluded.
- TcpStream.Reassembly: for wrapped differences, runs in which no two numbers compared lie across 2^31; streams below 2^32-1 bytes need no such condition (TcpShort.ShortReassembly).
- TcpProgress.NextByteMoves: the same condition, which TcpWrapped.HeadOvertaken shows to be needed; and runs without overlapping segments; overlapping ones can leave the queue head stuck, because the forward guard needs equality. That writable events come, and that sends take something, is up to the surroundings.
- TcpAccounting.SequenceAccounting: excludes port 443, whose CONNECT prelude puts the session back to LISTEN; socket ownership and the queue are proved for every port.
- TcpWindow.StepKeepsWindow: excludes the acknowledgements of OddAckMovesBack, as do the run theorems built on it.
- TcpGranted.GrantedWindowSafety: the half that finds passing bytes needs a segment size above 0; with 0 every read looks like the end of the stream.
- TcpWindow.NeverBeyondEdge: bounds by the edge in force; TcpGranted.GrantedWindowSafety has the edges the app granted.
- TcpWindow.SendWindowSafety: bounds by the edge in force; TcpGranted.GrantedWindowSafety has the edges the app granted. Window scales up to 14 (section 2.3 of RFC 7323), which the code does not enforce.
- TcpReceive.RelayFromSyn: excludes port 443.
- TcpSession.Session.QueueTcp: the linked list is a sequence field; freeing of segments and aliasing between nodes are not captured.
- EventLoop.Loop.CheckSessions: the session list is a sequence; its nodes are values. One clock value per pass, where the code asks for the time again inside each check.
- SessionTable.SleepIsExact: covers the wait the check loop chooses; the shorter wait of a loop that has to recheck is not modelled.
- TunnelObjects.Tunnel.OnReadable: byte buffers are sequences; the shared buffer's content is kept only where the code reads it again.
- Relay.Conservation: what flows, not that it does; who is read and who never again is in RelayFlow.SomeoneListens and RelayFlow.SilentIff. That nothing is read from the app before the proxy's own 200 is in Relay.ProxyAnsweredFirst, with its exact condition. Upper-casing is that of ASCII.
- NatService.Service.OnIPPacketReceived: RemoteHost and the host parser it calls are not part of the table entry.
- Sni.ReadSni: the bytes of the name, not their decoding into characters.
- FakeIp.Allocator.GetOrCreateFakeIp: one thread; the maps are not updated concurrently.
- Dns.ReadName: the message starts behind other headers, at offset 28 in both callers; at offset 0 a pointer cycle would raise no limit and exhaust the stack.
- Dns.TamperedParsesBack: messages with one question, in an array with room behind the message, as both arrays of the source have; with two, the answer record overwrites the second question. Names are bytes, not characters, and the flags stay raw.
- NatRuns.TableCountsData: packets with complete headers; for others what is written depends on the bytes behind them.
- The reset that answers a TCP packet of no session: it belongs to no connection and leaves the table as it is.
- The bytes of HTTP requests on port 80 (http.c), C name parsing in DNS answers (get_qname) and WriteDomain, whose output has no terminator.
- Sockets, epoll, selectors, tun I/O, threads, JNI, permissions, DHCP, IPv6 extension headers, logging and statistics counters.
- A cap on the number of C sessions: the code compares a count taken once per pass, so the cap is not an invariant.
