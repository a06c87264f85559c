# A verified model of the network stack's data path, routing and header checksum

The stack has three layers: link-layer frames, a distance-vector IP layer, and a TCP with one
segment outstanding. This project models what the upper two must get right on every run, and
proves it.

## The transport layer

`SocketClass.Socket` is the C `struct Socket` with its 16-bit ring indices, 32-bit sequence numbers
and two 64 KiB buffers. Its methods are the handlers of `loopthread.c`, the timer task, and the
locked and sampled parts of `mainthread.c`; each is proved equal to a function on socket values
(`Machine`). `System` puts two such sockets, their application threads and two FIFO channels
together: a step is one handler, one timer task, one part of an application call, or the loss of
one packet whose control byte is zero. A run is any finite sequence of steps, with any timings.

`Protocol` is the same system with unbounded stream positions instead of wrapping words and without
rings. `Invariant` says what holds between its endpoints in every reachable state, and
`Simulation.RunMatches` proves that the narrow machine does exactly what the unbounded one does, on
every run. From these two the statements about the real fields follow: `Theorems`, `Guarantees`,
`Positions`, `Progress`, `Settling` and `Closing`. `Moments` looks back along a run, to when a FIN
first went out or an ACK was sent. `Timers`, `Deliveries` and `Threads` say, on every run and from
the hosts and channels alone, what one timer round sends and when it waits, what the delivery of each
kind of packet answers and changes, and what readLab and writeLab return. `Witnesses`, `Races` and `Overflow` are concrete runs on which the
code fails. A theorem about one of the two streams takes the sending side as a parameter, and sees
that side as `a`.

What the transport model assumes:

- Channels are FIFO and lose only packets with a zero control byte, as `randomDrop` does.
- A route is present and the ARP list is empty, so every send goes out; packets are under 64 KiB and
  not padded.
- A handler, a timer round for one socket and a locked section are atomic. Each unlocked sample
  reads one variable that another thread writes, so it is one atomic step.
- One thread reads and one writes each socket; connectLab is called once, on a fresh socket.
- A failed C `assert` is the outcome `Abort`, and ends the run in `Crash`.
- What malloc returns is arbitrary (`Heap`), and the clock is a parameter of the timer step.

Where the code does not do what it seems meant to:

- writeLab commits bytes after a FIN. Its only tests come before its unlocked loop, and of them
  `state & CL_CALL` never decides (`SocketClass.Socket.WriteAllowed`). Three things lead to such a
  commit: a write begun after the own closeLab (`Witnesses`), a write under way when another thread
  closes, and a write under way when the peer's FIN comes in, whose answer is a FIN of the own side
  (`Races`; there the writer's application never calls closeLab at all).
- A FIN is answered with `ackNum + 1`, which is also the ACK of one byte sent after it. So a byte can
  be acknowledged that never arrived (`Witnesses.LateWriteLosesByte`), a sender can be stuck
  (`Witnesses.LateWriteSticks`), and the window can be one byte too wide, so that the assert
  `validLen == receivedLen` fails without any loss (`Overflow.LateWriteCrashes`).
- The condition that excludes all of this is a test of `clstate & CL_FIN_SENT` where writeLab takes
  the lock to copy; runs whose every commit would pass it are called `Disciplined`. `Orderly` proves
  that applications achieve it by three rules: begin no write after the own close, close while no
  write is under way, and have none under way when the peer's FIN comes in. For each rule there is a
  run that breaks it and fails.
- Few theorems assume discipline. On all runs they say exactly when the assert fails
  (`Guarantees.CrashIsOverflow`), when a matched ACK is true (`Guarantees.MatchedAckIsTrue`), when a
  sender is stuck (`Guarantees.NoStuckSender`), what a FIN and an end of file guarantee
  (`Closing.FinAfterDrain`, `Closing.EndOfFile`), and how far a window can reach. Discipline is the
  case in which the exceptions vanish.
- A closed socket accepts nothing and answers nothing, so a late write can stay unacknowledged for
  good although the peer's numbers agree with it (`Settling.ClosedPeerNeverAnswers`,
  `Races.ClosedPeerSticks`).
- readLab looks at the ring and then at the state, at two instants. `Witnesses.EarlyEndOfFile` is a
  run where it returns 0 with a byte waiting; `Closing.EndOfFile` is the exact condition at one instant.
- Any ACK sets CL_ACK_RECV once a FIN is out, not only the ACK of the FIN, so no theorem here reads
  that bit as more than it says.
- removeDuplicates returns early on a single entry, whatever its distance
  (`RouteTable.DistanceBound`).
- The timer of a socket is shared by segments, probes and FINs. While the window is closed each probe
  pushes it on, so a FIN is repeated only with an open window (`Timers.RoundSends`).

## Routing

`RouteTable` has the in-place removal of duplicates, `Lookup` the search of the tables, and
`RouterClass.Router` the global tables of one host with the functions that change them; what qsort
does with equal keys is a parameter. Above them, `Topology` defines hop distance, `Stabilise` proves
that tables become the shortest-path tables from any starting state, `Propagation` that no
asynchronous run ever underestimates, `Rounds` that asynchronous runs stabilise too, and `Forwarding`
that packets then arrive although no TTL is decremented. An epoch is a period in which every router hears, from each neighbour, at least one table
of the epoch before, and rebuilds from such tables only; synchronous rounds are the simplest case.
Every router has at least one interface, and each message carries some address of its sender.

## Checksum

`Checksum` proves calcCheck equal to the complement of the one's-complement sum, as section 3.1 of
RFC 791 and section 2 of RFC 1071 define it, and that created headers sum to all ones.

## Model

| member | source | states |
|---|---|---|
| Ring.CopyIn | src/transport/loopthread.c:200-210 | the one- or two-piece copy into a ring puts the bytes at consecutive positions mod 65536 and leaves every other ring byte alone |
| Ring.CopyOut | src/transport/mainthread.c:246-256 | the copy out of a ring yields the bytes at consecutive positions mod 65536, and leaves the rest of the caller's buffer alone |
| Ring.CopySegment | src/transport/loopthread.c:376-388 | the segment copy, bounded by end indices, is the same consecutive bytes |
| Ring.PutExtends | src/transport/mainthread.c:288-300 | a write of no more than the free space extends the stream a ring holds and disturbs none of its live bytes, wherever the ring wraps |
| Ring.GetReads | src/transport/mainthread.c:245-257 | what is read from live positions is that part of the stream |
| SocketClass.Socket.constructor | src/transport/mainthread.c:48-64 | a new socket is zeroed, in the given state |
| SocketClass.Socket.ConnectLab | src/transport/mainthread.c:207-216 | sends a SYN with sequence number -1 and enters ST_SYS_SENT |
| SocketClass.Socket.HandleListen | src/transport/loopthread.c:43-81 | a SYN creates a new socket in ST_SYS_RECV and a SYN-ACK; the listening socket is unchanged; other packets do nothing |
| SocketClass.Socket.HandleHandshake | src/transport/loopthread.c:83-145 | the two handshake handlers: exactly which packets establish the connection, with which fields and reply; any other packet changes nothing |
| SocketClass.Socket.HandleAck | src/transport/loopthread.c:158-178 | the ACK part: match on 16 bits, assert, window, sequence number, then the close bits and ST_CLOSED |
| SocketClass.Socket.HandleFin | src/transport/loopthread.c:179-192 | the FIN part: both close bits, and a reply with ackNum + 1 while ackNum stays |
| SocketClass.Socket.HandleData | src/transport/loopthread.c:193-233 | the data part: accept in-order data, the assert on space, the reply; an in-order empty probe is answered; a packet with another number changes nothing and is not answered |
| SocketClass.Socket.HandleEstablished | src/transport/loopthread.c:147-234 | the whole handler in the order of its parts, including the abort of an assert |
| SocketClass.Socket.AsyncSendData | src/transport/loopthread.c:323-396 | one resend, one probe, one new segment of at most 1024 bytes within the window, or nothing; a resend or probe never before its time |
| SocketClass.Socket.AsyncSendFin | src/transport/loopthread.c:397-425 | a first or repeated FIN exactly when everything committed is acknowledged and closing has begun |
| SocketClass.Socket.AsyncSend | src/transport/loopthread.c:312-427 | a timer round of one socket: nothing unless connected, then the data part and the FIN part on its result |
| SocketClass.Socket.WriteAllowed | src/transport/mainthread.c:268-274 | a write is let in exactly in ST_ESTABLISHED before the peer's FIN has come; the CL_CALL test on `state` never decides, so closing sockets are let in |
| SocketClass.Socket.SampleSendSpace | src/transport/mainthread.c:280-281 | the count writeLab computes from the free ring space mod 65536 |
| SocketClass.Socket.WriteCommit | src/transport/mainthread.c:287-301 | the caller's bytes enter the ring behind the committed ones, and only sendFront moves |
| SocketClass.Socket.SampleRecvSpace | src/transport/mainthread.c:235-236 | the count readLab computes from the received bytes |
| SocketClass.Socket.ReadCommit | src/transport/mainthread.c:244-258 | the caller receives the oldest unread bytes, only recvBack moves |
| SocketClass.Socket.CloseCall | src/transport/mainthread.c:304-315 | closeLab's locked part sets CL_CALL and nothing else |
| DirectionSteps.AckKeeps | src/transport/loopthread.c:158-170 | taking an ACK off the channel keeps the invariant of the stream, a FIN's ACK taken for a data ACK included |
| DirectionSteps.AcceptKeeps | src/transport/loopthread.c:193-222 | accepting the outstanding segment and sending its ACK keeps the invariant of the stream |
| DirectionSteps.FinArrives | src/transport/loopthread.c:179-192 | a FIN that arrives, and its ACK, keep the invariant of the stream |
| DirectionSteps.DropKeeps | src/network/ippacket.c:160-175 | losing any one data packet, wherever in the channel, keeps the invariant |
| Preservation.TimerKeeps | src/transport/loopthread.c:318-426 | a timer round keeps the invariant of both streams and takes no close bit back |
| Preservation.DeliverKeeps | src/transport/loopthread.c:147-234 | a delivery to an open endpoint keeps the invariant of both streams and takes no close bit back |
| Reachable.StepKeeps | src/transport/loopthread.c:294-306 | every step of either endpoint or of the network keeps the whole invariant, handshake phases included |
| Refinement.AckSendMatches | src/transport/loopthread.c:160-170 | under the invariant's bounds the 16-bit test holds exactly for the ACK of the whole sent position, the assert on ackBack holds, and the new indices are the low bits of the new positions |
| Refinement.OnEstablishedMatches | src/transport/loopthread.c:147-234 | the handler on wrapping fields does what the unbounded protocol does, and aborts in the same states |
| Refinement.TickMatches | src/transport/loopthread.c:318-426 | the timer round on wrapping fields does what the unbounded protocol does, bytes of resent segments included |
| Refinement.HandshakeMatches | src/transport/loopthread.c:43-145 | the handshake handlers put the fields where the unbounded protocol puts its positions |
| Simulation.RunMatches | src/transport/loopthread.c:147-426 | on every run, of any length and across any number of wraps, the machine and the unbounded protocol agree in all fields, packets and crashes, and the invariant holds |
| Theorems.StreamIntegrity | src/transport/mainthread.c:222-302 | on every run, with any losses and resends and even with writes after a FIN, what readLab returned, and that followed by what waits in the ring, is a prefix of what writeLab committed |
| Guarantees.CrashIsOverflow | src/transport/loopthread.c:160-199 | on every run an assert of TCPHandleEstablished fails in a step if and only if it delivers in-order data longer than the receiver's free space |
| Guarantees.OverflowIsOneByte | src/transport/loopthread.c:193-199 | such data is exactly one byte too long, its sender's FIN is out, and its sender has committed bytes since |
| Guarantees.NeverCrashes | src/transport/loopthread.c:193-199 | so on a disciplined run no assert fails |
| Guarantees.FlowControl | src/transport/loopthread.c:166-166 | on every run the position a sender may send up to exceeds the bytes the receiver's application has read by at most 65536, and by 65536 only after its FIN and not on a disciplined run |
| Guarantees.AckMatchIsExact | src/transport/loopthread.c:158-170 | the assert on ackBack never fails, on any run; before the sender's FIN, and on a disciplined run throughout, an ACK is matched on its low 16 bits only when the peer has every byte sent |
| Guarantees.MatchedAckIsTrue | src/transport/loopthread.c:158-192 | on every run a matched ACK tells the truth if and only if its number is not one past what the peer expects; it always does unless exactly one byte more has been sent than was committed when the FIN went out |
| Guarantees.SegmentsCarryTheStream | src/transport/loopthread.c:327-396 | every data packet in flight, first copy or resend, carries the committed bytes at its sequence number, whatever writeLab did in between |
| Guarantees.NoStuckSender | src/transport/loopthread.c:193-233 | on every run, while a connected sender has a segment outstanding, the receiver still expects it or an ACK that will match is in flight, if and only if the sender's number is not one past the receiver's; never so on a disciplined run, which also stays connected |
| Progress.RoundTrip | src/transport/loopthread.c:341-351 | with nothing else in flight one timer, one delivery and one reply transfer the outstanding segment, or probe a closed window, and leave the window at the read position plus 65535 |
| Progress.ExchangeCompletes | src/transport/loopthread.c:327-351 | on the machine, that round in a quiet state of a disciplined run settles the sender, delivers all sent bytes and reopens a closed window as far as the application has read |
| Timers.DeadlineIs | src/transport/loopthread.c:327-351 | on every run the time a socket waits for is half a second after its last timer round that sent anything, five seconds after it if that round ended with a FIN |
| Timers.RoundSends | src/transport/loopthread.c:308-429 | on every run, exactly which packets a timer round sends, in stream positions: the outstanding bytes or an empty probe once that time has passed, else the next new segment at once, at most 1024 bytes within the window; a FIN when everything is acknowledged and closing has begun; all with the current numbers |
| Timers.DataIsSpaced | src/transport/loopthread.c:327-351 | after a round that sent something, with a segment outstanding or the window closed, later rounds send no data up to half a second later (five after a FIN), and exactly one data packet from then on |
| Timers.FinIsSpaced | src/transport/loopthread.c:402-413 | after a round that ended with a FIN, a socket that waits for its ACK repeats it not before five seconds, then exactly once |
| Deliveries.UnexpectedData | src/transport/loopthread.c:193-233 | a packet without control bits and without the expected number, an old or repeated segment, leaves both hosts and the reverse channel as they were |
| Deliveries.ExpectedData | src/transport/loopthread.c:193-233 | one with the expected number arrives with all its bytes and is answered by exactly one ACK, of all that arrived and with the free space left, if and only if it fits |
| Deliveries.AckDelivery | src/transport/loopthread.c:158-178 | on every run an ACK is not answered; matched, it settles the sender and sets its window; unmatched, no position moves; the close bits and ST_CLOSED follow exactly |
| Deliveries.FinDelivery | src/transport/loopthread.c:179-192 | on every run a FIN is answered by exactly one ACK of one more than arrived, and only the two close bits change |
| Deliveries.HandshakeIgnores | src/transport/loopthread.c:43-145 | a packet a socket does not wait for in its state has no effect |
| Threads.ReaderLeaves | src/transport/mainthread.c:233-241 | on every run a step takes a reader with an empty ring out of readLab only on a closed socket, and back to the ring only on one that is not |
| Threads.ReadCommitStep | src/transport/mainthread.c:244-258 | on every run the locked copy returns exactly the sampled number of the oldest unread bytes and leaves the rest |
| Threads.ReadReturns | src/transport/mainthread.c:222-259 | on every run call, sample and copy in a row return the first unread bytes, as many as there are up to the number asked for |
| Threads.ReadEnds | src/transport/mainthread.c:239-240 | on every run, when readLab returns 0 with the ring still empty, everything the peer committed before its FIN has been returned, the whole stream on a disciplined run |
| Threads.WriteCommitStep | src/transport/mainthread.c:287-301 | on every run the locked copy commits exactly the sampled number of the first bytes of the buffer |
| Threads.WriteCommits | src/transport/mainthread.c:261-302 | on every run call, sample and copy in a row commit the first bytes of the buffer, as many as it holds up to the ring's space |
| Threads.BufferIsGiven | src/transport/mainthread.c:261-302 | on every run what a thread inside writeLab holds is what its last call was given |
| Threads.CloseStep | src/transport/mainthread.c:304-315 | closeLab sets CL_CALL on any socket but a listening one and changes nothing else |
| Settling.MatchIsProgress | src/transport/loopthread.c:158-170 | on every run, matching an ACK while a segment is outstanding strictly decreases the unacknowledged bytes and settles the sender |
| Settling.Quiesce | src/transport/loopthread.c:147-234 | from any state with both ends connected and no late bytes, whatever is in flight, deliveries alone empty both channels and leave both ends connected |
| Settling.OutstandingSettles | src/transport/loopthread.c:318-396 | from every state of a disciplined run with both ends connected and bytes unsent or unacknowledged, whatever is in flight, a continuation without loss settles the sender with everything sent arrived, and opens the window unless nothing is left to send or the receiver's ring is full |
| Settling.ClosedPeerNeverAnswers | src/transport/loopthread.c:20-41 | a segment outstanding when the peer is closed, with no matching ACK in flight, stays outstanding on every continuation, and nothing more arrives |
| Positions.PositionsAgree | src/transport/loopthread.c:158-233 | on every run low16(seqNum) == ackBack and low16(ackNum) == recvFront; with nothing outstanding the sender's seqNum is the receiver's ackNum, so that a zero-window probe is answered, if and only if it is not one past it, which takes a late write |
| Positions.NothingMovesBack | src/transport/loopthread.c:160-170 | no step of any run lowers the acknowledged or sent position or takes back a committed, received or returned byte |
| Moments.FinLength | src/transport/loopthread.c:397-425 | from the step in which a FIN first goes out, the stream's length at that step is fixed and its bytes stay |
| Moments.AcksAreAnswers | src/transport/loopthread.c:179-233 | every ACK in flight was sent at some moment of the run: it names what was received then, one more if it answers a FIN, with the window of then |
| Positions.WindowIsReadPosition | src/transport/loopthread.c:161-170 | on every run a matched ACK moves the window to the receiver's read position when the ACK was sent plus 65535, and everything sent by now had arrived then; an ACK of a FIN, which no disciplined run matches, claims one byte more and opens the window by one more |
| Closing.SampledSpaceIsStable | src/transport/mainthread.c:233-258 | whatever happens between the unlocked sample and the lock, the sampled space or bytes are still there, in readLab and writeLab |
| Closing.HandshakeAligns | src/transport/loopthread.c:83-145 | an end that enters ST_ESTABLISHED has the sequence number its peer expects, expects its peer's next, and has all ring indices at the matching low bits |
| Closing.FinAfterDrain | src/transport/loopthread.c:397-425 | on every run a host that has seen its peer's FIN has everything the peer had committed when that FIN first went out; it has the whole stream if and only if it expects the number that ends the peer's ring; on a disciplined run nothing was committed since |
| Closing.FinArrival | src/transport/loopthread.c:179-192 | in the step in which a FIN first arrives, what has arrived is exactly what had been committed when it went out, and so the whole stream if and only if nothing was committed since |
| Closing.CloseBitsOnlyGrow | src/transport/mainthread.h:43-53 | no step takes a close bit back |
| Closing.ClosedMeansComplete | src/transport/loopthread.c:173-177 | ST_CLOSED is reached only with both FIN bits and both ACK bits; the one other closed socket never connected |
| Closing.EndOfFile | src/transport/mainthread.c:233-241 | on every run, on a closed connection the stream has been read to its end if and only if the ring is empty at that instant and the peer's ring ends at the expected number; an empty ring alone means everything committed before the FIN was read, the whole stream on a disciplined run |
| Closing.NoDeadEnd | src/transport/mainthread.c:316-322 | with nothing in flight, both send rings empty, a close requested and no FIN left to send, closeLab's exit test holds at both ends, simultaneous closing included |
| Witnesses.LateWriteLosesByte | src/transport/mainthread.c:268-274 | a concrete run: a byte committed after the FIN is acknowledged although it never arrived; the FIN is marked received, and the window is one byte wider than the receiver's ring |
| Witnesses.LateWriteSticks | src/transport/mainthread.c:268-274 | that run continued: a byte is outstanding that the receiver does not expect, and no ACK is in flight |
| Witnesses.SenderCannotTell | src/transport/loopthread.c:158-170 | two runs end with the same sender and the same matching ACK next, which is true in one and false in the other, so no test at the sender can be exact |
| Races.PeerCloseLosesByte | src/transport/mainthread.c:268-301 | a concrete run: a host that never calls closeLab is past writeLab's tests when the peer closes, commits after its own FIN, and ends closed with a byte acknowledged that never arrived |
| Races.ClosedPeerSticks | src/transport/mainthread.c:287-301 | a concrete run: a write under way while its own side closes leaves a byte outstanding at a connected sender whose closed peer has agreeing numbers; no continuation acknowledges it |
| Overflow.LateWriteCrashes | src/transport/loopthread.c:193-199 | a concrete run without any loss on which the assert on the free space fails |
| Orderly.RulesAreEnough | src/transport/mainthread.c:261-326 | applications that begin no write after their close, close with no write under way, and have none under way when the peer's FIN comes in commit nothing after a FIN |
| Witnesses.EarlyEndOfFile | src/transport/mainthread.c:233-241 | a concrete run: readLab leaves with 0 on a closed connection while a byte waits in the ring |
| RouteTable.RemoveDuplicates | src/network/route.c:206-223 | the in-place pass leaves, in the first entries of the array, the result of the specification function |
| RouteTable.CompareIsByKey | src/network/route.c:189-204 | the order is by mask and then address, antisymmetric, and equal exactly for equal keys |
| RouteTable.MergeOrdered | src/network/route.c:211-216 | from sorted entries the first loop makes strictly ordered ones |
| RouteTable.MergeCovers | src/network/route.c:211-216 | every input entry is covered by a kept one of its key that is no further |
| RouteTable.CutKeeps | src/network/route.c:218-222 | the second loop keeps exactly the entries with distance at most 20, in order |
| RouteTable.DedupIsBest | src/network/route.c:189-223 | for any order an unstable sort leaves, the result is strictly ordered by (mask, ip), each entry is one of the inputs with its key's least distance, and a key is present exactly when an input within 20 has it |
| RouteTable.DistanceBound | src/network/route.c:208-209 | the bound of 20 holds if and only if the input is not a lone entry beyond 20, the early return |
| RouteTable.BestIsUnique | src/network/route.c:149-187 | two possible results of the unstable sort agree in keys and distances |
| RouterClass.Router.constructor | src/network/route.c:57-76 | the first table has, for each interface in order, a host route at distance 0 with its address, its hardware address and itself as interface |
| RouterClass.Router.AddDefaultRouteTable | src/network/route.c:36-55 | appends exactly those host routes |
| RouterClass.Router.HandleRouteTable | src/network/route.c:78-98 | appends every received entry with the receiving interface, the sender's address and its distance plus one mod 2^32 |
| RouterClass.Router.BroadcastRouteTable | src/network/route.c:100-122 | one packet per interface, each with the whole table and that interface's address |
| RouterClass.Router.UpdateRouteTable | src/network/route.c:149-187 | the new table is the best of the collected entries and the router's own; an entry that was not collected names one of the router's interfaces with its addresses; the collection starts over |
| RouterClass.Router.FindDevice | src/link/device.c:175-183 | the first interface of that name, or none if no interface has it |
| RouterClass.Router.SetRoutingTable | src/network/route.c:261-285 | -1 and no change exactly when no interface has that name; otherwise 0 and a manual route over the first that has it |
| RouterClass.Router.QueryRouteTable | src/network/route.c:225-259 | both search loops compute the lookup function, manual table first |
| Lookup.ScanIsGreatest | src/network/route.c:230-241 | a search finds a matching entry of greatest mask, and fails only when no entry with a non-zero mask matches |
| Lookup.ScanKeepsFirst | src/network/route.c:230-241 | the chosen entry is the first in the table among the matching ones of greatest mask |
| Lookup.PrefixMaskBits | src/network/route.c:230-241 | the mask of a prefix length, loaded little-endian, has exactly that many leading bits in network order |
| Lookup.HitIsPrefix | src/network/route.c:232-232 | with such a mask an entry matches exactly the addresses that share its leading bits |
| Lookup.MaskOrderIsPrefixOrder | src/network/route.c:189-204 | contiguous masks, stored in network order and loaded little-endian, compare as numbers the way their prefix lengths compare |
| Lookup.QueryIsLongestPrefix | src/network/route.c:225-259 | the lookup is longest-prefix match, manual entries first; a default route of length 0 is never chosen |
| Lookup.LongestIsUnique | src/network/route.c:206-223 | in a table without duplicates the longest match is unique |
| Stabilise.RebuildImproves | src/network/route.c:78-187 | a table rebuilt from tables that are right below distance k is right below k + 1, with the nearest neighbour recorded |
| Stabilise.RoutingStabilises | src/network/route.c:78-223 | from any tables without the distance 2^32 - 1, after k epochs everything nearer than k is right, and after 21 each table is exactly the shortest-path table cut at 20 |
| Stabilise.RoutingStabilisesFromAnything | src/network/route.c:78-223 | from any tables at all, a wrapping distance included, one epoch more suffices |
| Propagation.NextSound | src/network/route.c:78-187 | every broadcast, receipt, loss and update keeps all entries witnessed by walks |
| Propagation.NeverUnderestimates | src/network/route.c:36-187 | on every asynchronous run each table entry has a walk of exactly its distance through its recorded neighbour, so distances never fall below the true ones |
| Propagation.ZeroIsOwn | src/network/route.c:36-55 | on every asynchronous run an entry at distance 0 names an own interface that has the entry's address and hardware address |
| Rounds.PacedIsEpochs | src/network/route.c:78-187 | an asynchronous run, cut so that every router starts a collection, hears every neighbour before each update and nothing older than the cut before, and updates, is a history of epochs |
| Rounds.AsynchronousStabilises | src/network/route.c:78-223 | from any tables, collections and messages in flight, after 22 such rounds every table is exactly the shortest-path table cut at 20, and remains so |
| Forwarding.ForwardIsNearer | src/network/ippacket.c:144-158 | over converged tables a forwarded packet reaches exactly one router, one hop nearer |
| Forwarding.ForwardingDelivers | src/network/ippacket.c:184-210 | a packet at distance d reaches a host for which isMyPacket holds after exactly d hops |
| Forwarding.NoLoops | src/network/ippacket.c:184-210 | no route of any packet can loop or stray, although the TTL is never decremented |
| Forwarding.FarIsUnroutable | src/network/ippacket.c:144-158 | beyond 20 hops, and for unowned addresses, the lookup fails and nothing is forwarded |
| Checksum.CalcCheck | src/network/ipheader.c:8-17 | the loop and its two folds compute the complement of the one's-complement sum of the ten words |
| Checksum.TwoFolds | src/network/ipheader.c:13-14 | two folds bring every sum of ten words into 16 bits, keep its class modulo 65535, and give zero only for zero |
| Checksum.CheckedHeaderSums | src/network/ipheader.c:46-47 | storing the checksum makes the header sum to 0xFFFF, for every header |
| Checksum.CheckCommutesWithSwap | src/network/ipheader.c:8-17 | computing the checksum on byte-swapped words gives the byte-swapped checksum |
| Checksum.NetworkOrderSums | src/network/ipheader.c:8-17 | for any twenty bytes the sum of the words in network order is the byte-swapped sum of the words as a little-endian host loads them |
| Checksum.CreateIpHeader | src/network/ipheader.c:19-48 | the created header has the given fields, and its twenty bytes as they lie in memory, taken pairwise in network order, sum to 0xFFFF |

## Left out

Stated for fewer cases than all:

- Guarantees.NeverCrashes: the disciplined case of Guarantees.CrashIsOverflow, which is exact on all runs.
- Progress.ExchangeCompletes: in a quiet state of a disciplined run; Settling.OutstandingSettles drops the quiet.
- Settling.OutstandingSettles: on disciplined runs with both ends connected; Witnesses.LateWriteSticks and Races.ClosedPeerSticks show it fail without. Which late runs still recover is not characterised beyond Guarantees.NoStuckSender and Settling.ClosedPeerNeverAnswers.
- Orderly.RulesAreEnough: one way; a run may break a rule and still commit nothing after a FIN.
- Forwarding.ForwardingDelivers: with unique hardware addresses, no manual routes and no ARP entries.

Not modelled:

- The socket list, matchSocket, findSocket, freeSocket and acceptLab: one connection is followed, the listening socket becoming its server end. Ports, several connections and socket reuse are not.
- Mutexes and their order, and so deadlock; data races and the memory model of the C compiler.
- Connecting twice, and simultaneous opening.
- TCPHandleClosed, which returns at once, and the TCP states no handler enters.
- Byte-order conversions of TCP fields, which cancel out, and the TCP checksum, which the code leaves constant.
- Reordering and duplication by the network, and loss of control packets: the code does not recover from a lost ACK, because a duplicate segment is not acknowledged again.
- Frames, devices, pcap, ARP, the resend queue and the id counter of sendIPPacket.
- The test of the protocol number in handleRouteTable: only routing messages are followed.
- Intervals between broadcasts and updates, changes of the topology, and the bytes of a routing message.
- The growth of the manual table's allocation in setRoutingTable.
- The fragment arguments of createIpHeader, which the code ignores.
- The tools around the library: mperf, other, the test programs and vnetUtils.
