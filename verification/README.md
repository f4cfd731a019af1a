# Verified models of the DPDK sample programs

This project models the six protocols and algorithms of the repository whose behaviour its own text
decides, and proves what they are for. Everything else in the repository is set-up code over a library.

| files | what they model |
|---|---|
| `ReorderSpec`, `ReorderBuffer`, `ReorderOverflow`, `ReorderModel`, `ReorderRuns`, `ReorderAlike`, `ReorderStale`, `ReorderDriver`, `Bits`, `Rings` | the packet reorder buffer: two power-of-two circular arrays, a sliding window, 32-bit sequence numbers that wrap, and the programs that fill and drain it |
| `RcuSpec`, `RcuProofs`, `RcuProgress`, `RcuCompletion`, `RcuProgram` | publication and reclamation of a shared pointer under quiescent-state based reclamation |
| `TokenBucket`, `Meter` | the two-rate three-colour meter (section 3 of RFC 2698, colour-blind) and its drop policy |
| `PipelineSpec`, `PipelineProofs`, `PipelineTheorems`, `Pipeline` | receive, parse and transmit threads over two bounded rings |
| `DuplexSpec`, `DuplexProofs`, `Duplex` | the two-process exchange over two rings, ended by a -1 |
| `RequestSpec`, `RequestProofs`, `RequestOrder`, `RequestAnswers`, `Requests`, `RequestSessions` | numbered requests from many senders, with lost and late replies and bounded retries |
| `PrefetchSpec`, `PrefetchProofs`, `Prefetch` | the receive loop split for prefetching, and its packets-per-second counter |
| `Basics`, `Wrappers` | what several models share |

Each model has the same layers. A `...Spec` module says on values what one step does. A class (or method
with loops) holds the program's own variables and is proved to go through exactly those values. The
theorems are about every run of the steps: any interleaving, any sizes, any number of threads, messages or
packets, with the program's constants as one instance. `dafny verify dfyconfig.toml` checks it all.

## Decisions

- Threads and processes take sequentially consistent steps, one access to shared memory each. A schedule is
  any sequence of actions; an action not enabled at its turn does nothing (a turn of a spin loop).
- Library calls are small contracts: a bounded first-in first-out ring, a counter table for quiescent states,
  a network card that takes some prefix of a burst, an allocator that returns any address not in use (so
  addresses are reused).
- Insert and drain of the reorder buffer exist in the repository as prose and a table
  (`notes/reorder.txt:300-354`); only the overflow is C. Their order of tests, and `offset + 1 - size` as the
  amount "move window forward" asks for, are read from that prose. `2 * size` is 32-bit arithmetic, as `Reach`
  says. `Mbuf.order`, the unbounded number of a packet, is not in the program: it is what its 32-bit number
  stands for.

## What the proofs found

- The overflow writes and clears an entry before it tests the ready ring for room
  (`notes/reorder.txt:391-402`). When a run of packets crosses the point where that ring becomes full, the
  packet that finds it full is lost. `OverflowConserves` and `LostIffOverruns` give the exact condition, which
  can be seen before the call (`Overruns`); nothing else is ever lost. It takes very little: `OneMoreLosesLast`
  fills a window of any size with packets already in order, drains none and inserts the next one. Every packet
  is accepted, and the last of the window never comes out. `RunDelivers` says of whole runs when all that was
  accepted is out or still inside.
- A packet whose 32-bit number looks newer or older than it is gets a verdict the unbounded numbers would not
  give. `Clear` is the exact condition for the verdicts, of one insert (`ClearIsExact`) and of a whole run
  (`VerdictsIffClear`), and `NearIsClear` shows the usual range meets it. A run of clear packets comes out in
  order (`OutputAscends`).
- Order is another matter: a packet that is not clear need not disorder anything. It can if and only if the
  code stores it and it is truly ahead of what it is taken for, or is behind and some place of the window comes
  before its own, or is behind and not above what has left the window already (`DisturbsIffHarmful`,
  `HarmfulInWindow`). `StalePacketDisorders` is a run of four steps in which one does.
- A reader's quiescent report reads the token and stores it in two steps, so a report already under way when
  the writer starts waiting does not count. A reader lets the writer past after at most seven of its own
  steps, and `GraceBound` gives the number exactly. One pass of the loop is not always enough:
  `OnePassNotEnough` is a state the program can reach in which six steps, from report to report, do not do.
- The meter's comments call its rates 10 and 20 Mbps (`meter_dpdk/main.c:107-108`); the fields are bytes a
  second (lines 104-106), and the model follows the fields.
- The transmit thread looks at its stop counter only after it has moved packets
  (`packet_parseer_ring/transmit.c:63-81`). If the network card refuses more packets than were parsed beyond
  the limit, transmit polls an empty ring for ever: `StopsUnlessNicRefuses` is the exact condition and
  `TransmitCanHang` a run of the configured program.
- The parser's missing free (`packet_parseer_ring/parser.c:108-114`) never loses a packet, in any schedule, if
  and only if `limit - 1` and the most the parser can hold fit a ring (`NeverLeaksIffSpacious`).
- A message of -1 stops the secondary and leaves the primary polling: the exchange completes if and only if
  no message is -1 (`HandshakeCompletesIff`). No product overflows 32 bits in any run if and only if the
  messages before it are at most 214748364 either way (`ProductsFitIff`). The program sends 0 to 9.
- `req_num * 65536` stays within a 32-bit int in every run if and only if there are at most 3640 senders
  (`ReplyFitsIff`). A late reply can answer a later call: every
  answer is to the call that waits for it if and only if no reply to an attempt that had timed out is delivered
  (`OwnAnswersIffNoneTooLate`). The numbers a sender is told
  rise if and only if no call of that sender is answered by a reply that an earlier delivery overtook
  (`RisesIffNoLateDelivery`); in-order delivery is enough but not needed, and `OvertakingDisorders` is a
  run that does not rise.

## Model

| member | source | states |
|---|---|---|
| Bits.MaskIsRemainder | notes/reorder.txt:381 | masking with size - 1 is the remainder by size, for every power of two |
| Rings.RotateStep | notes/reorder.txt:394-397 | clearing the head entry and stepping the head drops the first slot of the window and appends an empty one |
| Rings.LivePush | notes/reorder.txt:390-403 | an entry written at the ready ring's head is not live until the head steps; the ring is full at one less than its size |
| ReorderBuffer.Buffer.constructor | reorder_packet/main.c:60-62 | a new buffer of a power-of-two size stands for an empty window and an empty ready queue |
| ReorderBuffer.Buffer.MoveHead | notes/reorder.txt:391-402 | one turn of the inner loop in place, entry written before the room test: exactly `Pass`, which loses the packet when there is no room |
| ReorderBuffer.Buffer.TakeRun | notes/reorder.txt:390-403 | the inner loop takes the whole run at the head, or one packet more than there is room for |
| ReorderBuffer.Buffer.FillOverflow | notes/reorder.txt:360-409 | the C function over its two arrays ends and does to the buffer's value what `Overflow` says |
| ReorderBuffer.Buffer.InsertPacket | notes/reorder.txt:300-324 | the three cases over the arrays in 32-bit arithmetic, first packet included, are `Insert` |
| ReorderRuns.InsideRow | notes/reorder.txt:319-320 | first row of the table: a packet less than the size ahead is stored in its place and nothing else changes |
| ReorderRuns.AheadRow | notes/reorder.txt:321 | second row: the window moves by the least that takes the packet in, further only through packets that follow without a gap, short only when the ready ring is full; the packet is then stored in its place or refused |
| ReorderRuns.FarRow | notes/reorder.txt:322 | third row: refused as out of range if and only if twice the size or more ahead, the window staying |
| ReorderModel.ModelFarRow | notes/reorder.txt:322 | the same for unbounded numbers |
| ReorderBuffer.Buffer.MoveAndStore | notes/reorder.txt:319-321 | a packet ahead of the window is stored after the window has moved, and rejected when it could not move far enough |
| ReorderBuffer.Buffer.DrainInto | notes/reorder.txt:328-354 | the caller's array gets the ready queue, then the window's packets up to the first missing one or the maximum |
| ReorderOverflow.StopsOnce | notes/reorder.txt:380-404 | the description of where the overflow stops fits one place only |
| ReorderOverflow.OverflowShift | notes/reorder.txt:376-408 | for n up to size, head and first number move by the same amount, at most size, and at least n unless the ready ring fills; the window slides; the packets passed become ready in order, as many as fit |
| ReorderOverflow.LateIffOverruns | notes/reorder.txt:390-403 | the loop stops one packet too late exactly when, before the call, a run crosses the point of the last free entry |
| ReorderOverflow.OverflowConserves | notes/reorder.txt:390-403 | what leaves the window is what becomes ready plus what is lost; at most one packet is lost, the last taken, exactly when the window overruns the room |
| ReorderRuns.AheadSlotEmpty | notes/reorder.txt:321 | after the window has moved far enough, the packet that made it move fits, in an empty slot |
| ReorderOverflow.OverflowAt | notes/reorder.txt:376-408 | wherever the description says the overflow stops, its whole new state is known |
| ReorderModel.DistanceStops | notes/reorder.txt:380-404 | going number by number over the map, with no rings and no turns, ends where the nested loops stop |
| ReorderModel.OverflowRefines | notes/reorder.txt:360-409 | the overflow of the rings is the model's: the same distance, the packets filed under the numbers passed queued in order as room allows, numbered from the old base on, behind those already queued |
| ReorderModel.InsertRefines | notes/reorder.txt:300-324 | the 32-bit rings do to their contents what insertion into a map from unbounded numbers does, across wrap-around of index and number |
| ReorderModel.ClearIsExact | notes/reorder.txt:313-322 | the 32-bit verdict is the unbounded one if and only if the packet is clear |
| ReorderModel.NearIsClear | notes/reorder.txt:322 | packets behind by no more than 2^32 less the span are always rejected and change nothing |
| ReorderModel.DrainRefines | notes/reorder.txt:328-354 | draining the rings is draining the map from its base up to the first missing number |
| ReorderRuns.RunRefines | notes/reorder.txt:300-409 | over every run of inserts and drains the rings stay the image of the map and give the same verdicts and output |
| ReorderRuns.OutputAscends | notes/reorder.txt:288-354 | for any interleaving of inserts and drains all the output together is strictly increasing |
| ReorderRuns.StalePacketDisorders | notes/reorder.txt:313-322 | a packet 2^32 behind is stored as new and comes out after a higher one |
| ReorderRuns.RunConserves | notes/reorder.txt:300-409 | over every run, whatever the numbers, accepted packets are those output, ready, in the window, lost by an overflow or written over |
| ReorderRuns.NothingDisplaced | notes/reorder.txt:320 | with numbers never reused no stored packet is written over |
| ReorderRuns.LostIffOverruns | notes/reorder.txt:321-403 | an insert loses a packet exactly when, before it, the packet lies ahead of the window and the run to be moved overruns the room |
| ReorderRuns.NoneDroppedIffSafe | notes/reorder.txt:300-409 | over every run, whatever the numbers, nothing is lost by an overflow if and only if no insert was overrunning when it came |
| ReorderRuns.RunDelivers | notes/reorder.txt:300-409 | with numbers never reused, everything accepted is out or still inside, and nothing else is, if and only if no insert was overrunning |
| ReorderAlike.AlikeRuns | notes/reorder.txt:300-409 | runs on packets with the same 32-bit numbers in the same places go on having the same shape: the buffer looks at nothing else |
| ReorderStale.VerdictsIffClear | notes/reorder.txt:313-322 | over a whole run the verdicts are the unbounded ones if and only if each packet is clear when it comes |
| ReorderStale.StaleDisorders | notes/reorder.txt:313-354 | a harmful packet behind what it is taken for comes out, after clear packets and a drain, behind one not below it |
| ReorderStale.AheadDisorders | notes/reorder.txt:313-354 | a harmful packet 2^32 or more ahead of what it is taken for comes out before one below it |
| ReorderStale.DisturbsIffHarmful | notes/reorder.txt:313-354 | after any clear run, a packet can put the output of what follows, all clear itself, out of order if and only if it is harmful |
| ReorderStale.HarmfulInWindow | notes/reorder.txt:320 | for a packet put straight into the window, harmful is: truly ahead, or not at the first place, or not above what has left the window |
| ReorderStale.ClearIsHarmless | notes/reorder.txt:313-322 | a clear packet is never harmful |
| ReorderDriver.DrainShape | notes/reorder.txt:335-354 | one drain without its loops: how much of the queue and of the leading run it takes, and how far the window moves |
| ReorderDriver.DrainAllMeaning | reorder_packet/main.c:84-101 | for any buffer and burst the drain loop ends with the ready ring and the window's first slot empty, having emitted the queue and the leading run |
| ReorderDriver.ShuffleComesOutSorted | reorder_2/main.c:57-99 | any arrival order of at most size consecutive packets that starts with the first is stored whole and comes out sorted, across 32-bit wrap-around |
| ReorderDriver.BrimfulOverflow | notes/reorder.txt:380-404 | moving a full window on by one moves it on by its whole length, all but the last packet becoming ready |
| ReorderDriver.OneMoreLosesLast | notes/reorder.txt:390-403 | for every size, a window's worth of packets in order and one more are all accepted, the last packet of the window is lost, and the drain loop emits all the others |
| ReorderDriver.InsertAll | reorder_packet2/main.c:114-123 | the insert loop offers every arrival and frees exactly those not stored, in order |
| ReorderDriver.DrainLoop | reorder_packet2/main.c:127-142 | the drain loop over the real buffer ends and emits what the drains until an empty one emit |
| ReorderDriver.Resequence | reorder_packet/main.c:69-101 | insert loop then drain loop: emits exactly queue and leading run and frees exactly the packets not stored; a shuffle comes out sorted with nothing freed |
| RcuProofs.NextKeepsInv | rcu_dpdk/main.c:20-70 | every step of readers, writer and grace period keeps the invariant: a held pointer is the current one, or the writer's old one with the holder still awaited and its counter below the token |
| RcuProofs.NextKeepsMonotone | rcu_dpdk/main.c:31-32 | every step keeps each reader's values nondecreasing and what it holds no older than what it has seen |
| RcuProgress.RcuSafe | rcu_dpdk/main.c:28-95 | for any readers, updates, addresses and interleaving: nothing dead is read or freed, what a reader holds is live, readers and updates stay those given, at most two blocks live, values seen never go down, blocks are freed once each in order, and a completed run of N updates has freed all N + 1 |
| RcuProgress.PrintsOnce | rcu_dpdk/main.c:31-32 | what a reader has printed changes by its own dereference only, which adds one value |
| RcuProgress.PrintsWhatItLoaded | rcu_dpdk/main.c:31-32 | a reader prints exactly the version that was current when it loaded the pointer, whatever the others do in between |
| RcuProgress.DistanceStep | rcu_dpdk/main.c:25-42 | while the writer waits, each own step brings a reader exactly one nearer to letting it past and no other step moves it |
| RcuProgress.GraceBound | rcu_dpdk/main.c:62 | within one grace period a reader that has taken d steps is exactly d nearer, so seven are enough, late registration and going offline included |
| RcuProgress.SynchronizeReturns | rcu_dpdk/main.c:61-65 | after any schedule in which every reader takes seven steps, the writer has passed or is let past and frees the old version |
| RcuProgress.StopBound | rcu_dpdk/main.c:28-43 | once the stop flag is up, each own step brings a reader exactly one nearer to its exit |
| RcuProgress.ShutdownCompletes | rcu_dpdk/main.c:69-95 | any schedule in which every reader then takes eight steps lets the last version be freed |
| RcuCompletion.RankStep | rcu_dpdk/main.c:49-95 | the writer is four of its steps from its end for each update to make and two to stop; each brings it one nearer and no other thread's step moves it |
| RcuCompletion.RoundAdvances | rcu_dpdk/main.c:49-92 | after any schedule in which each reader takes eight steps, and a look at each, the writer can step, whatever it was waiting for |
| RcuCompletion.ProgramCompletes | rcu_dpdk/main.c:72-95 | from any state the program can be in, as many such rounds as the writer has steps left end the program, whatever else happens in them |
| RcuCompletion.CompletesWithin | rcu_dpdk/main.c:72-95 | from the start, for any readers and updates, a schedule of (4N + 2)(9R + 1) steps ends with the writer done and all N + 1 versions freed |
| RcuCompletion.OnePassNotEnough | rcu_dpdk/main.c:28-39 | a reachable state in which a whole pass of the reader's loop does not let the writer past and the next step does |
| RcuProgram.Program.EnterOrLeave | rcu_dpdk/main.c:25-42 | registering, going online, going offline and unregistering on the program's own variables are the reader's steps |
| RcuProgram.Program.LoopStep | rcu_dpdk/main.c:28-39 | so are the accesses of its loop, and its dereference is of a live block |
| RcuProgram.Program.ReaderTurn | rcu_dpdk/main.c:20-44 | one step of a reader, wherever it is |
| RcuProgram.Program.UpdateStep | rcu_dpdk/main.c:49-67 | the body of an update: allocate, exchange, new token, free of a live block |
| RcuProgram.Program.FinishStep | rcu_dpdk/main.c:69-95 | the stop flag, the join and the last free |
| RcuProgram.Program.WriterTurn | rcu_dpdk/main.c:47-95 | one step of the writer, wherever it is |
| RcuProgram.Program.PassTurn | notes/rcu.txt:594-596 | synchronize goes past one thread that is offline or has reached the token |
| RcuProgram.Program.Execute | rcu_dpdk/main.c:20-95 | any schedule run on the program's variables goes through the model's states and keeps the invariant |
| TokenBucket.NeverNegative | meter_dpdk/notes.txt:338-345 | a bucket charged only what it holds never goes below zero |
| TokenBucket.ChargeBound | meter_dpdk/notes.txt:331-336 | in any window a bucket is charged at most its size and what flows in over the window |
| TokenBucket.LastFull | meter_dpdk/notes.txt:331-336 | whatever is charged, a level always dates from a packet at which the bucket was last full |
| TokenBucket.ShortIffExceeds | meter_dpdk/notes.txt:338-345 | a full bucket falls short of a packet if and only if some window of what was charged and it exceeds size and inflow |
| TokenBucket.CoversIffConforms | meter_dpdk/notes.txt:331-345 | a full bucket can pay for a whole stream if and only if every window of it conforms |
| Meter.TwoBuckets | meter_dpdk/notes.txt:338-345 | the colouring loop is two independent buckets, charged by green and by green and yellow packets, never overcharged, and the colour is what their levels say |
| Meter.MeterSound | meter_dpdk/main.c:102-110 | for every stream and window, green bytes within committed burst and rate, green and yellow bytes within peak burst and rate |
| Meter.NoRedIffFitsPeak | meter_dpdk/notes.txt:338-348 | nothing is dropped if and only if every window fits peak burst and rate |
| Meter.AllGreenIffFitsBoth | meter_dpdk/notes.txt:338-345 | everything is green if and only if every window fits both |
| Meter.AllGreenIffFitsCommitted | meter_dpdk/main.c:107-110 | with CIR at most PIR and CBS at most PBS, everything is green if and only if every window fits committed burst and rate |
| Meter.ConfiguredNeverPenalises | meter_dpdk/main.c:107-110 | the same for the profile the program installs |
| Meter.ConfiguredDropsIff | meter_dpdk/main.c:107-110 | with the installed profile nothing is dropped if and only if every window fits 20,000,000 bytes a second and 131,072 bytes |
| Meter.ColourByBytes | meter_dpdk/notes.txt:338-345 | the exact colour of every packet of every stream in bytes: red iff some window of passed bytes and it exceeds the peak, green iff not red and no window of green bytes and it exceeds the committed rate and burst |
| Meter.Policer.Meter | meter_dpdk/notes.txt:338-345 | one packet coloured in place on the persistent buckets |
| Meter.Policer.Police | meter_dpdk/main.c:133-155 | a stream metered in place: what reaches the receive loop is exactly the packets not red, green and yellow alike, in order, within peak burst and rate over every window |
| PipelineProofs.RunKeepsInv | packet_parseer_ring/parser.c:93-122 | in every reachable state, whatever the limits, ring sizes and refusals: packets stand in line in arrival order, what the card took is in arrival order, each packet received is in one place only, and the counters count what has passed |
| PipelineProofs.FrontGoesOn | packet_parseer_ring/transmit.c:68-76 | in every reachable state each stage passes on the front of its burst, in order, and gives up the rest: the card takes the first k and the others are freed |
| PipelineProofs.CountersCount | packet_parseer_ring/receive.c:32-41 | the three counters say how many packets each stage has passed on, refused ones not counted, and a thread has stopped only at its limit |
| PipelineTheorems.NeverRefusesIffRoomy | packet_parseer_ring/main.c:82-83 | no ring ever refuses in any schedule if and only if limit - 1 + burst is at most the capacity |
| PipelineTheorems.NeverLeaksIffSpacious | packet_parseer_ring/parser.c:108-114 | the parser's unchecked enqueue loses no packet in any schedule if and only if the rings hold nothing at all, or limit - 1 and the most the parser can hold at a time fit a ring |
| PipelineTheorems.ConfiguredNeverRefuses | packet_parseer_ring/parser.c:108-114 | with limit 25, burst 32 and 1023 usable slots every counter stays at most 56 and the parser's unchecked enqueue never loses a packet |
| PipelineTheorems.ArrivalOrder | packet_parseer_ring/transmit.c:57-76 | finished packets and those under way are at every moment all packets received in arrival order; what was sent is a subsequence, and a prefix if the card refused none |
| PipelineTheorems.RoomyTerminates | packet_parseer_ring/receive.c:38-41 | in any schedule at most six moves for each of the limit - 1 + burst packets that can arrive |
| PipelineTheorems.StopsUnlessNicRefuses | packet_parseer_ring/transmit.c:63-81 | the only stuck states are all stopped, with at most burst - 1 packets left on rings, or transmit polling an empty ring; the latter exactly when the card refused more than was parsed beyond the limit |
| PipelineTheorems.TransmitCanHang | packet_parseer_ring/transmit.c:63-81 | a run of the configured program in which one refused packet leaves transmit polling for ever |
| Pipeline.Ring.EnqueueBurst | packet_parseer_ring/receive.c:21-25 | a ring takes, in order, the part of a burst the model says it accepts, and refuses some only once full |
| Pipeline.Ring.DequeueBurst | packet_parseer_ring/parser.c:97-101 | what a ring gives and what it keeps are what it held, in order; it gives fewer than asked only when that empties it |
| Pipeline.Pipeline.ReceiveEnqueue | packet_parseer_ring/receive.c:21-41 | enqueue, free what the ring refused, count, and look at the limit |
| Pipeline.Pipeline.ParserPut | packet_parseer_ring/parser.c:108-121 | enqueue without looking at how many were taken, then look at the limit |
| Pipeline.Pipeline.TransmitBurst | packet_parseer_ring/transmit.c:68-81 | the card takes a prefix, the rest is freed, only what was sent is counted |
| Pipeline.Pipeline.Execute | packet_parseer_ring/main.c:82-83 | any schedule run on the threads' and rings' own state leaks nothing and keeps all packets received in arrival order |
| DuplexProofs.BatonMoves | full_duplex_2_rings/prim.c:41-67 | whoever can move carries the exchange exactly one step on its round of eight, and nobody can once it is at rest |
| DuplexProofs.HandshakeSafe | full_duplex_2_rings/sec.c:38-60 | for any messages, ring size, addresses and interleaving: no dead block is touched, at most one block exists over rings and hands, the k-th reply is ten times the k-th message, allocations less frees is what lives, the stop enqueue finds an empty ring |
| DuplexProofs.StuckIffRest | full_duplex_2_rings/prim.c:54-56 | nobody can move exactly when the secondary has met -1 |
| DuplexProofs.HandshakeCompletesIff | full_duplex_2_rings/prim.c:41-70 | at most eight moves a message and four for the stop; at rest both are done, rings empty, every block freed and every reply received if and only if no message was -1 |
| DuplexProofs.StraightCompletes | full_duplex_2_rings/prim.c:41-67 | without a spin the exchange completes in eight moves a message and four for the stop |
| DuplexProofs.ProductsFitIff | full_duplex_2_rings/sec.c:53 | the product fits a 32-bit int in every run if and only if every message before the first -1 is at most 214748364 either way |
| DuplexProofs.ConfiguredFits | full_duplex_2_rings/prim.c:41-44 | the program's messages 0 to 9 give products 0 to 90 |
| Duplex.Exchange.PrimaryTurn | full_duplex_2_rings/prim.c:41-67 | each step of the primary in place on heap and rings; what it reads and frees is live |
| Duplex.Exchange.SecondaryTurn | full_duplex_2_rings/sec.c:38-60 | the same for the secondary |
| Duplex.Exchange.Execute | full_duplex_2_rings/sec.c:38-60 | any schedule run on the shared state goes through the model's states |
| RequestProofs.NextKeepsInv | Multiple_Sender_MP/prim.c:14 | every step keeps: numbers issued are counted, each sender's numbers are its own and distinct, attempts are bounded by where its loops are |
| RequestProofs.NumbersAreUnique | Multiple_Sender_MP/sec.c:49-92 | for any senders, losses, late replies and signals: numbers issued are 1 to count, a sender is told its own, none twice, at most three; successes at most count, count and pending at most attempts, attempts at most nine for each sender |
| RequestProofs.SignalStops | Multiple_Sender_MP/sec.c:49-72 | after a signal a sender makes at most the one attempt it was about to make, and none if it was waiting |
| RequestOrder.RisesIffNoLateDelivery | Multiple_Sender_MP/sec.c:72-86 | in every run, whatever is lost or late, the numbers a sender is told are strictly increasing if and only if no call of it is answered by a reply that a delivery overtook before |
| RequestOrder.InOrderRises | Multiple_Sender_MP/sec.c:72-86 | in particular they are when its own replies are delivered in order, whatever happens to other senders |
| RequestAnswers.CallsStep | Multiple_Sender_MP/prim.c:14 | every step keeps: each call is on its way, or numbered, at most once, and never both |
| RequestAnswers.OwnAnswersIffNoneTooLate | Multiple_Sender_MP/sec.c:72-86 | in every run, every answered call was answered with the reply to its own request if and only if no reply to an attempt that had timed out was delivered |
| RequestOrder.OvertakingDisorders | Multiple_Sender_MP/sec.c:79-85 | a run with a late delivery in which a sender is told 2 and then 1 |
| RequestProofs.FloodCounts | Multiple_Sender_MP/sec.c:72-86 | the bound of nine numbers for each sender is reached, for any number of senders |
| RequestProofs.ReplyFitsIff | Multiple_Sender_MP/prim.c:26-28 | req_num * 65536 fits a 32-bit int in every run if and only if there are at most 3640 senders |
| Requests.AttemptMade | Multiple_Sender_MP/sec.c:79-85 | one call leaves a sender at its next retry or its next request, as the protocol's steps do |
| Requests.Request | Multiple_Sender_MP/sec.c:69-92 | the retry loop: ends at the first answer, the third failure or a signal, and loses no answer |
| Requests.MakeRequests | Multiple_Sender_MP/sec.c:49-107 | the request loop: all answers kept in order, all three requests made unless a signal comes, at most three attempts at each; the end state is the protocol's |
| RequestSessions.LoopsExplainSender | Multiple_Sender_MP/sec.c:49-107 | in every run of all processes, a finished sender made the attempts and kept the numbers its loops make and keep, given how its calls ended and whether a signal came; each number was issued to it by the primary, none twice |
| Requests.Exchange.Callback | Multiple_Sender_MP/prim.c:12-40 | the callback's number is the new count, above every number told or under way; the products are right and fit a 32-bit int up to 3640 senders |
| PrefetchProofs.EffectListsAll | prefetch/main.c:244-257 | the effect of a log counts every packet processed, once and in its turn |
| PrefetchProofs.EffectFolds | prefetch/main.c:244-257 | it is that of the packets processed, one after another from the first |
| PrefetchProofs.EffectIsFold | prefetch/main.c:18-26 | what a log does depends only on the order of processing |
| PrefetchProofs.SameAsPlain | prefetch/main.c:239-262 | a log that processes a burst in order has the plain loop's effect on any state, every packet of the burst applied from the first on |
| Prefetch.FetchHead | prefetch/main.c:239-242 | the first loop prefetches the head of the burst, within bounds |
| Prefetch.FetchAndProcess | prefetch/main.c:244-252 | the second loop keeps exactly `offset` packets ahead and one more between its two calls; no turn on a burst of at most `offset` |
| Prefetch.HandleBurst | prefetch/main.c:239-262 | for every burst length and offset: each packet prefetched, processed and freed once, in order, prefetched before processed, none freed before all are processed; at most offset + 1 ahead, and that many at one moment |
| Prefetch.HandledIsPlain | prefetch/main.c:239-262 | such a burst has the plain loop's effect: every packet processed, one after another from the first |
| Prefetch.PrefetchedFirst | prefetch/main.c:244-257 | at every moment of a handled burst, a packet being processed is the next of those prefetched before, at most offset + 1 of which wait |
| PrefetchProofs.ReceivedAdds | prefetch/main.c:235 | packets received over polls are those of each poll added up |
| PrefetchProofs.ReportedAdds | prefetch/main.c:268 | packets reported are those of each report added up |
| PrefetchProofs.CountsEveryPacket | prefetch/main.c:235-271 | over any run, reports plus total - last is what was received: modulo 2^64 always, exactly while the total has not wrapped |
| PrefetchProofs.ReportsAreSpaced | prefetch/main.c:264-271 | however the 64-bit clock wraps, reports are more than hz apart, so at most one per hz is made |
| PrefetchProofs.ReportIff | prefetch/main.c:232-271 | a poll reports exactly when it brings packets and the clock shows more than hz since the last report |
| Prefetch.Receiver.Turn | prefetch/main.c:227-272 | one turn over the burst array and the 64-bit variables; an empty burst reads no clock |
| Prefetch.Receiver.Receive | prefetch/main.c:227-272 | the loop over any arrivals handles every burst and accounts for every packet |

## Left out

- EAL, port, mempool, queue, flow-rule and ring set-up: calls into a library that is not part of this model.
- Hardware memory ordering, sleeps and printing: steps are sequentially consistent and print nothing.
- The diagnostic reads of `*msg` after the block was handed over (full_duplex_2_rings/prim.c:50 and 60): not steps of the exchange.
- Requests.Exchange.Callback: the callback's sends and the text of its reply are not modelled; losing the reply, or failing to send it, is a step of the protocol.
- Requests.MakeRequests: the answers of the calls and the moment of the signal are parameters; `LoopsExplainSender` says which they are in a run and that the primary issued them.
- Meter.MeterSound: tokens flow in continuously, in units of 1/hz of a byte, as in the description of the buckets' rates; the rounding of the library's periodic updates is not part of this model.
- Meter.AllGreenIffFitsCommitted: buckets start full, as the meter is installed.
- RcuProgress.RcuSafe: the token is unbounded; the library's is 64 bits wide.
- ReorderRuns.RunDelivers: frees of packets the drivers print are not modelled; `DrainLoop` returns them instead.
- The single-drain ending of reorder_2/main.c:89-99 is `ReorderDriver.DrainShape` with one drain; its ignored insert result has no separate statement, `ShuffleComesOutSorted` showing that nothing is refused there.
- Parsing of packet headers, ACL, graph nodes, event devices, fragmentation and timers: straight-line field reads, or decided by the library and not by this code.
