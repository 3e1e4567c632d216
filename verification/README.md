# Verified model of the FFmpeg transcode scheduler and its timestamp machines

The `ffmpeg` program connects demuxers, decoders, filtergraphs, encoders and muxers into a
graph, runs one task per node, and keeps deciding which sources may go on. This project
models that scheduler (`fftools/ffmpeg_sched.c`) and the four loops that carry timestamp
state from packet to packet, and proves what they promise.

`dafny verify dfyconfig.toml` checks everything.

## The files

The transcoding graph and the scheduler's decisions:

| file | what it models |
|---|---|
| `Topology.dfy` | the graph: links kept at sources and at sinks, the walk up through codecs |
| `Digraph.dfy` | walks, cycles and ranks in a graph given by the feeder of each input |
| `Connect.dfy` | `sch_connect` and `start_prepare` |
| `Acyclic.dfy` | the depth-first search for cycles, with its explicit stack |
| `Unchoking.dfy` | which tasks a running demuxer needs beside it, as least closed sets |
| `Demand.dfy` | which streams and closed inputs ask for data, and what an update decides |
| `Schedule.dfy` | the class that marks, holds and releases tasks in place |
| `Needed.dfy` | what an update leaves running, told by numbers and by walks in the graph |
| `TwoInputs.dfy` | two graphs with two demuxers: one copies a stream of each, one overlays them |

Threads side by side, each a relation between states whose steps are the regions under a
lock, the reads of an atomic flag and the queue operations:

| file | what it models |
|---|---|
| `Handoff.dfy` | senders and the start of a muxer |
| `Flush.dfy` | the flush request and the end timestamps that answer it |
| `Lifecycle.dfy` | starting, finishing, stopping and cleaning up tasks |
| `Stopping.dfy` | `sch_stop` holding the tasks beside a scheduling update that releases them |

Sequential parts, each a class whose methods change its fields as the program does:

| file | what it models |
|---|---|
| `PreMux.dfy` | the flush of the buffers of a muxer into its queue, in time order |
| `MuxInit.dfy` | initialising muxers, the SDP, starting their tasks |
| `EndOfFile.dfy` | the end of a stream on its way to destinations and filtergraph inputs |
| `FrameRate.dfy` | frame-rate conversion and the counts of dropped and duplicated frames |
| `Shown.dfy` | which of the frames a converted stream shows, and when |
| `MuxTs.dfy` | repairing timestamps before muxing |
| `LoopTs.dfy` | shifting the passes of `-stream_loop` |
| `AudioTb.dfy` | the time base in which audio time is counted |
| `Timestamps.dfy`, `Divisors.dfy`, `Options.dfy` | time bases, comparison and rescaling; divisors and multiples; optional values |

## How the parts hang together

* `StartPrepare` accepts exactly the complete graphs without cycles. On accepted graphs the
  filtergraphs have ranks, which is what makes the mutual recursion of the marking end, and
  what makes the tasks to be woken a well-defined set. `ScheduleUpdate` leaves running
  exactly the least closed set of the sources asked for, plus one task when no stream asks.
  `Needed` says which tasks these are without that set or the functions that make it up.
* `Handoff` takes the muxer's buffers one packet at a time in any order; `PreMux` shows that
  the order in fact taken is that of time. `MuxInit` shows that this happens once per muxer.
* `Lifecycle` takes from `MuxInit` that a muxer's task is started at most once.
* `Schedule` takes an update and the first part of `sch_stop` one after the other;
  `Stopping` shows what remains true of both when they overlap.
* Integers are unbounded except where a limit decides a branch: the `INT_MAX` tests in
  `CompareTs` and in the audio time base. The missing timestamp is an absent value, except
  in `MuxTs`, where the code compares it as a number. Doubles are reals.

## What the code does beside its comments

* Only the first destination of a demuxer stream and of a decoder output is followed when
  tasks are woken or queues frozen (`fftools/ffmpeg_sched.c:1298`, `:1337`, `:1368`); all
  destinations of an encoder are. The closure is stated that way.
* The search for cycles does not pass over filtergraphs it has finished
  (`fftools/ffmpeg_sched.c:1526`), so it walks every simple path upstream. It ends all the same.
* A loop of decoders and encoders without a filtergraph is not looked for. It is accepted
  where no filtergraph input leads up to it, and where one does, `src_filtergraph` goes
  round it for ever, as `unchoke_for_stream` does where a muxed stream leads up to it:
  `WalksEndIff`, and `LoopHarmsExactlyWhenFiltered` for a graph of each kind.
* When no stream is left to feed, an update releases the first demuxer that has not exited,
  even one that was never started because none of its streams is used
  (`fftools/ffmpeg_sched.c:1450-1460`, `:1747`), and may hold all that have threads:
  `UnusedInputStalls`, and `NoStall` for when that happens.
* `sch_stop` holds the tasks without the schedule lock (`fftools/ffmpeg_sched.c:2725-2734`).
  An update that found the termination flag clear can release one afterwards, and
  `waiter_wait` does not look at the flag for a task that is not held: `MayBeReleasedLate`,
  and `HeldUnlessReleased` for exactly which tasks.
* An end of file that finds the FIFO of a muxer's stream full is refused, which the encoder
  ignores (`fftools/ffmpeg_sched.c:2450-2455`): `EofCanBeLost`, and `EofArrives`.
* A frame that is in time may never be shown, and one that is too late may be, when the next
  frame asks for repetitions: `InTimeButNeverShown`, and `ShownExactly` for which are.
* `data_size` is not lowered by the flush. `OverflowExactly` shows that it is nevertheless
  the size of what is buffered whenever it is consulted.
* A frame is counted as dropped twice when a skipped duplication meets a pending frame
  (`fftools/ffmpeg_filter.c:2609-2619`), and at the end of the stream when a pending frame is
  not repeated (`:2525-2528`, `:2609-2610`). `Conservation` and `EndBalance` say by how much.
* A packet without a dts makes the repair of timestamps forget the one before
  (`fftools/ffmpeg_mux.c:201`): `MayGoBack`, and `InOrderExactly` for when that does harm.
* An update that holds a demuxer in the middle of a flush freezes the queue the flush is in,
  and both threads wait until a later update thaws it: `MayBeStuck`, and `StuckExactly`.
* The audio time base falls back when the least common multiple plus the new rate passes
  `INT_MAX`, which is before the multiple itself does: `FallsBackExactly`, `FallsBackEarly`.
* A filtergraph without inputs never closes its control stream through its inputs: the
  counter never moves.

## Model

| member | source | states |
|---|---|---|
| Topology.CodecLoopIff | fftools/ffmpeg_sched.c:1480-1498 | the walk up through codecs ends from every source exactly when no decoder or encoder is fed, through codecs alone, by its own output |
| Topology.EndsIff | fftools/ffmpeg_sched.c:1480-1498 | the walk up through codecs from one source ends exactly when it does not lead into such a loop |
| Topology.WalksEndIff | fftools/ffmpeg_sched.c:1324-1360 | the walks that the search for cycles makes all end exactly when no filtergraph input has such a loop above it, and those that an update makes exactly when no muxed stream has one either |
| Topology.LoopHarmsExactlyWhenFiltered | fftools/ffmpeg_sched.c:1480-1498 | a fully connected graph with such a loop, in which they end, and one in which they do not |
| Topology.Origin | fftools/ffmpeg_sched.c:1480-1498 | every source from which that walk ends has above it, through as many codecs as its depth, a demuxer stream or a filtergraph output |
| Acyclic.SrcFiltergraph | fftools/ffmpeg_sched.c:1480-1498 | the loop returns that origin |
| Acyclic.CheckAcyclicForOutput | fftools/ffmpeg_sched.c:1501-1545 | the search from one filtergraph ends whenever the walks through codecs do, stays within a stack of nb_filters, succeeds exactly when every walk upstream is bounded, and fails only on a real cycle |
| Acyclic.CheckAcyclic | fftools/ffmpeg_sched.c:1547-1581 | success exactly when the graph of filtergraphs, seen through decoders and encoders, has no directed cycle |
| Acyclic.EdgesAreLinks | fftools/ffmpeg_sched.c:1515-1545 | the edges of that graph are the links: going up from an input of one filtergraph, through codecs alone, leads to an output of the other |
| Digraph.AcyclicIff | fftools/ffmpeg_sched.c:1547-1581 | walks from every node are bounded exactly when no walk returns to its start |
| Connect.Links.SchConnect | fftools/ffmpeg_sched.c:937-1113 | a connection appends the sink at its source, records the source at its sink, changes nothing else, and keeps the two records inverse to each other |
| Connect.Links.AddDemuxStream | fftools/ffmpeg_sched.c:725-735 | one source more, without sinks; nothing else changes |
| Connect.Links.AddDec | fftools/ffmpeg_sched.c:758-796 | one sink and, as its first output, one source more, both unlinked |
| Connect.Links.AddEnc | fftools/ffmpeg_sched.c:801-830 | one sink and one source more, both unlinked |
| Connect.Links.AddFilterGraph | fftools/ffmpeg_sched.c:839-879 | a sink for each input and a source for each output more, all unlinked |
| Connect.Links.AddMuxStream | fftools/ffmpeg_sched.c:666-690 | one sink more, without a source |
| Connect.EveryBuildIsLinked | fftools/ffmpeg_sched.c:937-1113 | however nodes are added and connected in turn, the links of sources and sinks are mutually inverse |
| Connect.OneSourcePerSink | fftools/ffmpeg_sched.c:937-1113 | no sink is listed by two sources |
| Connect.HopIsTraced | fftools/ffmpeg_sched.c:937-1113 | going from a codec to a sink that one of its outputs lists can be traced back from the sink |
| Connect.DescentIsUnique | fftools/ffmpeg_sched.c:937-1113 | following the lists of sinks from demuxers through codecs there is one way to each sink |
| Connect.DescentIsBounded | fftools/ffmpeg_sched.c:937-1113 | such a walk down meets no sink twice and ends: it is no longer than there are codecs and one |
| Connect.FullyConnectedIff | fftools/ffmpeg_sched.c:1583-1689 | what the loops of start_prepare test is that every source has a sink and every sink a source |
| Connect.Links.StartPrepare | fftools/ffmpeg_sched.c:1583-1697 | success exactly for complete graphs without cycles of filtergraphs |
| Schedule.Scheduler.constructor | fftools/ffmpeg_sched.c:349-363 | an accepted graph in which the walks of an update end is one the scheduler can work on, with nothing held at first |
| Schedule.Scheduler.TrailingDts | fftools/ffmpeg_sched.c:438-458 | the least dts of the streams that count, unknown while one of them has none |
| Schedule.Scheduler.UnchokeDownstream | fftools/ffmpeg_sched.c:1289-1322 | marks the tasks that the sink wakes and, through demuxers it adds, all they wake; nothing else; it ends on every such graph |
| Schedule.Scheduler.UnchokeForStream | fftools/ffmpeg_sched.c:1324-1360 | marks the task the stream waits for, to which codecs lead by what feeds them and filtergraphs by their wanted input, and what that task wakes; nothing else; the recursion ends |
| Schedule.Scheduler.UnchokeMuxes | fftools/ffmpeg_sched.c:1407-1429 | serves the source of every eligible stream and reports whether there was one |
| Schedule.Scheduler.UnchokeInputs | fftools/ffmpeg_sched.c:1431-1446 | serves the source of every filtergraph input whose end has not been noticed upstream |
| Schedule.Scheduler.UnchokeAny | fftools/ffmpeg_sched.c:1448-1460 | marks the first demuxer, or else filtergraph, that has not exited |
| Schedule.Scheduler.ChokeDemux | fftools/ffmpeg_sched.c:1362-1390 | freezes or opens the queues of exactly the decoders that are the first sink of a stream of the demuxer |
| Schedule.Scheduler.ScheduleUpdate | fftools/ffmpeg_sched.c:1392-1471 | the tasks left running are the least closed set of what is asked for, plus one task when no stream asks; decoder queues follow; an update that begins after the termination request changes nothing |
| Schedule.Scheduler.Terminate | fftools/ffmpeg_sched.c:2718-2734 | when no update runs beside it, every task is held and the queues behind the demuxers are open |
| Stopping.HeldUnlessReleased | fftools/ffmpeg_sched.c:2725-2734 | beside updates on other threads: when the loop of sch_stop is over, a task is not held exactly when an update released it after sch_stop had held it |
| Stopping.OpenUnlessFrozen | fftools/ffmpeg_sched.c:2727-2734 | the same for the queues behind a demuxer, frozen after sch_stop had opened them |
| Stopping.LateMeansTestedBefore | fftools/ffmpeg_sched.c:1397-1400 | an update that does so found the flag clear before it was set; none begins after that |
| Stopping.ToldForGood | fftools/ffmpeg_sched.c:320-337 | once that update is over, each task is told to end whenever it asks, but one released late is told to go on whenever it asks |
| Stopping.MayBeReleasedLate | fftools/ffmpeg_sched.c:1462-1468 | a run in which a task is released late |
| Stopping.AppliedAsMarked | fftools/ffmpeg_sched.c:1401-1468 | an update that ends before sch_stop begins leaves held exactly the tasks it marked to be |
| Stopping.QueuesAsHeld | fftools/ffmpeg_sched.c:1462-1468 | and the queues behind a demuxer frozen exactly when it is held |
| Unchoking.MarkThenMark | fftools/ffmpeg_sched.c:1298-1320 | marking from some tasks and then from others is marking from both |
| Unchoking.MarkedIsClosure | fftools/ffmpeg_sched.c:1289-1360 | marking from nothing reaches the least set that contains the seeds and is closed under waking |
| Unchoking.ClosureIsUnique | fftools/ffmpeg_sched.c:1289-1360 | there is only one such set, so the order of marking does not matter |
| Unchoking.FilterLowersRank | fftools/ffmpeg_sched.c:1346-1358 | going up through a filtergraph input lowers the rank that bounds the walk |
| Unchoking.WaitsForOne | fftools/ffmpeg_sched.c:1324-1360 | from every source that updates start at, a walk up, by what feeds a codec and by the wanted input of a filtergraph, leads to exactly one task: a demuxer, or a filtergraph that wants to run itself |
| Needed.WakesExactly | fftools/ffmpeg_sched.c:1289-1322 | the tasks woken for a sink are those that some walk down leads to, by the first sink of each decoder output and every sink of an encoder, to a filtergraph that is to run or whose wanted input waits for the task |
| Needed.ClosureIsReached | fftools/ffmpeg_sched.c:1289-1360 | the least closed set of some tasks is what chains of demuxers and what their streams wake lead to from them |
| Unchoking.ClosureHasThreads | fftools/ffmpeg_sched.c:1289-1322 | if all seeds are tasks that sch_start starts, so are all tasks they wake |
| Demand.AskedAre | fftools/ffmpeg_sched.c:1410-1446 | the sources asked for are exactly those of the eligible streams and of the unnoticed closed inputs |
| Needed.EligibleIsWanting | fftools/ffmpeg_sched.c:438-458 | a stream is served exactly when it is unfinished and has no dts, or all unfinished streams have one and none is 100000 or more before its own, and not all are INT64_MAX |
| Needed.RunningExactly | fftools/ffmpeg_sched.c:1392-1471 | a task is left running exactly when a chain leads to it from the task that the source of such a stream, or of an input closed without notice, waits for; or when no stream is left to feed and it is the first that has not exited |
| TwoInputs.FarAheadIsHeld | fftools/ffmpeg_sched.c:1423-1428 | beside a stream at 0, the demuxer of one at 99999 runs and that of one at 100000 is held |
| TwoInputs.WantedInputDecides | fftools/ffmpeg_sched.c:1346-1358 | the encoder behind an overlay of two demuxers waits for the demuxer of the wanted input and no other task |
| Demand.FirstDecodersAre | fftools/ffmpeg_sched.c:1362-1371 | the decoders whose queues follow a demuxer are those that are the first sink of one of its streams |
| Demand.QueuesFollow | fftools/ffmpeg_sched.c:1462-1468 | a queue that was frozen or open like its demuxer is so after an update; others stay as they were |
| Demand.DecisionIsUnique | fftools/ffmpeg_sched.c:1392-1471 | the decision of an update is a function of the state |
| Demand.TrailingStreamRuns | fftools/ffmpeg_sched.c:1410-1429 | the task behind every unfinished stream at the trailing dts, or without a dts while there is no trailing one, runs |
| Demand.NoStall | fftools/ffmpeg_sched.c:1448-1460 | an update leaves no task with a thread running exactly when nothing asks and the first task that has not exited, if there is one, was never started; while a stream is unfinished, with a dts below INT64_MAX if any, something asks |
| Demand.EligibleExactly | fftools/ffmpeg_sched.c:1410-1429 | some stream is eligible exactly when some stream is unfinished in that sense: the trailing one always is |
| Demand.AllHeldMeansDone | fftools/ffmpeg_sched.c:1448-1468 | an update holds everything only when no stream is unfinished in that sense and every demuxer and filtergraph has exited |
| Demand.UnusedInputStalls | fftools/ffmpeg_sched.c:1744-1752 | a graph with an unused input, in which an update releases the demuxer without a thread and holds the other |
| PreMux.EarliestStream | fftools/ffmpeg_sched.c:1131-1147 | the stream chosen is the first whose head is end of file or has no dts, otherwise the first of those with the least time |
| PreMux.ThreadQueue.Send | fftools/thread_queue.c:117-154 | a packet is taken only when both ends of its stream are open; a closed receiver closes the sender |
| PreMux.SchMux.MuxTaskStart | fftools/ffmpeg_sched.c:1115-1175 | the flush never fails, empties every FIFO, keeps each stream's order, loses packets only of streams the muxer closes, passes on the ends of streams, and is in time order across time bases if each FIFO is |
| PreMux.OrderedSend | fftools/ffmpeg_sched.c:1149-1162 | sending a head that may go first keeps the output in time order and before all that is buffered |
| Timestamps.CompareTsIsExact | libavutil/mathematics.c:147-158 | both ways of comparing give the sign of the exact difference |
| Timestamps.CompareTsIsTime | libavutil/mathematics.c:147-158 | comparing timestamps compares the times they stand for |
| Timestamps.RescaleError | libavutil/mathematics.c:58-127 | rescaling is off by at most half a unit |
| Timestamps.RescaleHalves | libavutil/mathematics.c:58-127 | halves are rounded away from zero |
| Timestamps.RescaleQError | libavutil/mathematics.c:142-145 | moving a timestamp to another time base moves it in time by at most half a unit |
| Handoff.PrefixOfSent | fftools/ffmpeg_sched.c:1967-2003 | in every interleaving the packets of a stream that reach the queue are a prefix of those sent, and with what is buffered or in flight they are all of them unless one was refused or overflowed; a refusal means the muxer closed the stream |
| Handoff.AllDelivered | fftools/ffmpeg_sched.c:1967-2003 | once the muxer runs and the sender rests, everything sent has arrived exactly when nothing was refused and nothing overflowed |
| Handoff.NoOvertaking | fftools/ffmpeg_sched.c:1976-1994 | no packet sent directly comes before one that waited in a FIFO |
| Handoff.OverflowExactly | fftools/ffmpeg_sched.c:1931-1965 | a packet overflows exactly when the FIFO is full, holds max_packets or more, and the data buffered with it passes the threshold |
| Handoff.RoomExactly | fftools/ffmpeg_sched.c:1931-1965 | what becomes of each item buffered: it goes to the end of the FIFO, whose room doubles when it is full, past the threshold to max_packets at most |
| Handoff.NothingAfterClose | fftools/ffmpeg_sched.c:1967-2003 | once the muxer has closed a stream no further packet of it reaches the queue |
| Handoff.NeverInvalid | fftools/thread_queue.c:127-130 | tq_send never meets a stream that its sender has finished, neither in the flush nor in a direct send: where it would, init_eof is set and it is not called |
| Handoff.EofArrives | fftools/ffmpeg_sched.c:1931-1947 | once the muxer runs and the sender rests, an end of file that was sent has arrived exactly when it was not the item that overflowed |
| Handoff.EofCanBeLost | fftools/ffmpeg_sched.c:2430-2458 | a run after which the muxer never learns that the stream has ended |
| Handoff.StepKeeps | fftools/ffmpeg_sched.c:1115-1175 | every step of sender, starter and muxer keeps the account of where each packet is |
| MuxInit.StartComesLast | fftools/ffmpeg_sched.c:1179-1213 | a muxer's task starts after its muxer is initialised and, with an SDP, after the SDP, which comes after every initialisation |
| MuxInit.CountIsComplete | fftools/ffmpeg_sched.c:1187-1192 | nb_mux_ready reaches nb_mux exactly when every muxer is initialised |
| MuxInit.Muxers.MuxInit | fftools/ffmpeg_sched.c:1179-1213 | each muxer is initialised and started at most once, in order; without an error nothing that should run is missing |
| MuxInit.Muxers.StreamReady | fftools/ffmpeg_sched.c:1231-1254 | the same, when the last stream of a muxer becomes ready after the start; before it nothing happens |
| MuxInit.Muxers.SchStart | fftools/ffmpeg_sched.c:1709-1717 | the same, for muxers that were complete before the start |
| Flush.OneUnanswered | fftools/ffmpeg_sched.c:2093-2135 | a running decoder that answers owes exactly one reply while the demuxer waits for it, and none otherwise |
| Flush.ReplyNeverBlocks | fftools/ffmpeg_sched.c:2273-2281 | a decoder with an end timestamp to hand over finds the one-slot queue empty, and is the one waited for |
| Flush.WaitHasReason | fftools/ffmpeg_sched.c:2112-2120 | while the demuxer waits a flush is queued, a reply is due or there, or the decoder has gone |
| Flush.StuckExactly | fftools/thread_queue.c:156-162 | while the demuxer waits, it and that decoder are both stuck exactly when the decoder's queue was frozen before the flush was taken out of it |
| Flush.MayBeStuck | fftools/ffmpeg_sched.c:1362-1371 | a run that leads there: the demuxer is held just after it sent the flush |
| Flush.WaitIsServed | libavutil/threadmessage.c:140-157 | while the queue is not frozen the demuxer or that decoder can take a step |
| Flush.ThawServes | fftools/thread_queue.c:258-268 | thawing the queue lets a stuck decoder go on |
| Flush.WaitEnds | fftools/ffmpeg_sched.c:2265-2292 | however the threads interleave, a wait is over after a number of steps of that decoder that is known when it begins |
| Flush.FlushReportsLatest | fftools/ffmpeg_sched.c:2093-2135 | a completed flush has, for each decoder it asked, the end timestamp that decoder handed over, and reports the latest of them |
| Flush.FlushReachesAll | fftools/ffmpeg_sched.c:2101-2124 | a flush that completes puts one flush packet in the queue of every unfinished destination, whether it answers or not, and nothing else |
| Flush.NothingAfterClose | fftools/thread_queue.c:117-154 | nothing is put in the queue of a decoder that has closed it |
| Flush.FinishedIsClosed | fftools/ffmpeg_sched.c:2041-2058 | only decoders that have closed their queue are given up as destinations |
| Lifecycle.AtMostOneCleanup | fftools/ffmpeg_sched.c:2655-2697 | however far the start got, no task is cleaned up twice and only tasks with a parent are |
| Lifecycle.StoppedMeansCleaned | fftools/ffmpeg_sched.c:2699-2776 | after sch_stop exactly the tasks with a parent were cleaned up, once each, and no thread runs |
| Lifecycle.NothingBeforeStart | fftools/ffmpeg_sched.c:1699-1706 | when start_prepare fails nothing was started and nothing is cleaned up |
| Lifecycle.MuxDoneIsBounded | fftools/ffmpeg_sched.c:2254-2258 | nb_mux_done never passes nb_mux, and reaches it exactly when every muxer was cleaned up |
| Lifecycle.StoppedMeansMuxDone | fftools/ffmpeg_sched.c:2718-2776 | after sch_stop nb_mux_done is nb_mux |
| Lifecycle.MuxNotStopped | fftools/ffmpeg_sched.c:1231-1254 | no muxer's task starts after sch_stop has been past it |
| Lifecycle.StartFindsNoThread | fftools/ffmpeg_sched.c:404-424 | for a task other than a muxer's, task_start never finds a thread already running |
| Lifecycle.UpMeansStarted | fftools/ffmpeg_sched.c:1719-1759 | when sch_start returns, exactly the tasks with a parent have been started, but for demuxers without streams and the muxers' own |
| Lifecycle.ConsumersFirst | fftools/ffmpeg_sched.c:1719-1752 | whatever fails, a task is started only after all those it may send to: encoders before filtergraphs, these before decoders, demuxers last |
| Lifecycle.StopWaitsForThread | fftools/ffmpeg_sched.c:2699-2716 | sch_stop waits only for a thread that still runs |
| EndOfFile.FanOut.SendToDst | fftools/ffmpeg_sched.c:2026-2059 | a destination gets data until one end of file, after which its flag is set and nothing follows; its refusal, the end of the stream or that of a streamcopy to a muxer sends the end, and nothing else does |
| EndOfFile.FanOut.Send | fftools/ffmpeg_sched.c:2061-2091 | every destination up to the first that fails is served as above, none after; end of file is reported exactly when none is left |
| EndOfFile.FanOut.EncSend | fftools/ffmpeg_sched.c:2460-2491 | the same for an encoder, which is never told that its destinations have ended |
| EndOfFile.FanOut.Done | fftools/ffmpeg_sched.c:2493-2507 | after cleanup every destination is finished, and each was sent exactly one end of file |
| EndOfFile.FinishedIsCounted | fftools/ffmpeg_sched.c:2302-2308 | finishing an input keeps the count equal to the finished inputs and closes the control stream only with the last |
| EndOfFile.FilterInputs.SendEof | fftools/ffmpeg_sched.c:2294-2315 | the first end of file on an input closes it, a second does nothing; the control stream closes with the last input |
| EndOfFile.FilterInputs.ReceiveFinish | fftools/ffmpeg_sched.c:2553-2578 | the same on the receiving side |
| EndOfFile.FilterInputs.Done | fftools/ffmpeg_sched.c:2604-2610 | every input and the control stream are closed to senders |
| FrameRate.Median3 | fftools/ffmpeg_filter.c:2492-2506 | the result is one of the three, with two of them at most and two at least it |
| FrameRate.FpsConv.VideoSyncProcess | fftools/ffmpeg_filter.c:2513-2634 | the frames to send and all counters are those of the specification whose properties follow here and under Shown |
| FrameRate.FpsConv.FgOutputFrame | fftools/ffmpeg_filter.c:2702-2783 | the same for the frames sent, their timestamps and their order |
| FrameRate.PrevAreAmong | fftools/ffmpeg_filter.c:2574-2582 | no more repetitions of the previous frame than frames to send |
| FrameRate.FrameBalance | fftools/ffmpeg_filter.c:2604-2632 | one frame changes sent, dropped, pending, received and duplicated alike, but for a skipped duplication while a frame is pending, which counts one too many |
| FrameRate.Conservation | fftools/ffmpeg_filter.c:2542-2633 | over any run, in every mode, frames sent, dropped and pending make up those received and duplicated, but for the frames counted twice |
| FrameRate.CountedTwice | fftools/ffmpeg_filter.c:2609-2619 | a run in which a frame is counted twice |
| FrameRate.EndBalance | fftools/ffmpeg_filter.c:2520-2531 | at the end of the stream the counts shift by one for a pending frame not repeated and by one for a skipped repetition, and by nothing else |
| FrameRate.EmittedAreConsecutive | fftools/ffmpeg_filter.c:2714-2772 | in the constant modes the timestamps sent are consecutive integers, to the end of the stream |
| FrameRate.DriftStep | fftools/ffmpeg_filter.c:2533-2583 | in both constant modes a frame brings the output back to within half a frame behind its end, or one frame in the VSCFR mode, and 2.1 frames ahead, or is skipped |
| FrameRate.DriftIsBounded | fftools/ffmpeg_filter.c:2533-2583 | the same after every frame of a run whose end times start at or after zero and never decrease |
| FrameRate.EmittedIncrease | fftools/ffmpeg_filter.c:2542-2600 | in every mode but passthrough and drop the timestamps sent strictly increase |
| FrameRate.SentInOrder | fftools/ffmpeg_filter.c:2720-2727 | frames are sent in the order in which they came, repetitions at the end of the stream included |
| Shown.KeptBackExactly | fftools/ffmpeg_filter.c:2533-2583 | nothing is sent for a frame exactly when it ends 1.1 frames before the next output time, or 0.6 in the variable mode, or meets the drop threshold; nothing of the frame itself exactly then or when its output times all go to the frame before |
| Shown.DropsAreCounted | fftools/ffmpeg_filter.c:2604-2632 | such a frame is pending, and the count of drops goes up for a pending frame that the next does not repeat and for a skipped one |
| Shown.SkipsExactly | fftools/ffmpeg_filter.c:2615-2622 | a frame is skipped when it asks for more frames than the limit, but for at most two that are all originals |
| Shown.FirstOutputTime | fftools/ffmpeg_filter.c:2557-2563 | the first frame sent goes where the output stands; in the VSCFR mode the output first jumps to the time nearest to it if that is half a frame ahead |
| Shown.HistoryIs | fftools/ffmpeg_filter.c:2604-2608 | after any run the history holds how often each of the last three frames asked for the one before it, latest first, and 0 where there were fewer |
| Shown.EndRepeatsMedian | fftools/ffmpeg_filter.c:2520-2531 | at the end of the stream the last frame is sent again at the times that follow, as often as the median of these, and not at all when that passes the limit |
| Shown.ShownNearItsTime | fftools/ffmpeg_filter.c:2533-2600 | for every frame but the first that is not skipped, the output time from which it may be shown is at most 1.1, 0.6 or 0.5 frames outside the time it covers, by mode, and for a frame that is too late it is the next output time |
| Shown.ShownExactly | fftools/ffmpeg_filter.c:2513-2634 | over a whole run, to the end of the stream, a frame is sent at all exactly when it is sent as it comes, or the next frame is not skipped and asks for repetitions, or it is the last and the median at the end is not zero nor too large |
| Shown.NotAtOnce | fftools/ffmpeg_filter.c:2714-2727 | the frames not sent as they come are the skipped ones and those kept back, but for a first frame for which anything is sent |
| Shown.FirstShownAt | fftools/ffmpeg_filter.c:2714-2772 | over a whole run, in every mode, a frame that is sent at all is first sent exactly at that time |
| Shown.ShownWithin | fftools/ffmpeg_filter.c:2533-2600 | so in the constant modes, when ends never decrease and nothing is skipped, every frame but the first that is sent is first sent at most 1.1 frames before the time it covers and at most 2.1 after |
| Shown.InTimeButNeverShown | fftools/ffmpeg_filter.c:2565-2583 | a run with a frame that ends after the next output time, is never sent and is counted as dropped |
| MuxTs.MuxStream.MuxFixupTs | fftools/ffmpeg_mux.c:166-207 | the packet and last_mux_dts are changed as specified, and the call fails exactly when a dts would have to be raised under -xerror; what that comes to is said next |
| MuxTs.GuessIsClamped | fftools/ffmpeg_mux.c:168-177 | the guess for an inverted packet is the expected dts kept between its pts and its dts |
| MuxTs.InvertedExactly | fftools/ffmpeg_mux.c:166-199 | a packet whose dts is after its pts leaves with both equal to last + 1 kept between the two, or its pts if it is the first, raised where it would not follow the previous packet, which alone is an error |
| MuxTs.PlainExactly | fftools/ffmpeg_mux.c:178-199 | any other packet has its dts raised to follow the previous one in an ordered stream, and its pts to that; missing timestamps stay missing |
| MuxTs.LeftAlone | fftools/ffmpeg_mux.c:156-166 | formats without timestamps take packets as they are, and dropped timestamps stay so |
| MuxTs.FixedIsOrdered | fftools/ffmpeg_mux.c:167-200 | a packet with both timestamps leaves with dts at or before pts, and missing ones stay missing |
| MuxTs.RunsFollow | fftools/ffmpeg_mux.c:178-201 | dts strictly increase, or do not decrease for formats that allow equal ones, as long as no packet without a dts comes between |
| MuxTs.InOrderExactly | fftools/ffmpeg_mux.c:178-201 | the dts written are in order throughout, gaps or not, exactly when after every gap the first dts, corrected against its own pts, follows all those written before |
| MuxTs.InOrderByInput | fftools/ffmpeg_mux.c:178-201 | the same in terms of the input, for packets whose dts is not after their pts: exactly when the first dts after every gap follows in[j] and the packets after it up to the end of its stretch, for every j before |
| MuxTs.MayGoBack | fftools/ffmpeg_mux.c:178-201 | a stream where they are not |
| MuxTs.PushedExactly | fftools/ffmpeg_mux.c:178-201 | the k-th dts written is the greatest of in[j] + (k - j) over j at most k, or of in[j] for formats that allow equal ones |
| MuxTs.RepairIsLeast | fftools/ffmpeg_mux.c:178-201 | no ordered sequence that is nowhere before the input is anywhere before the output |
| MuxTs.RepairIsIdempotent | fftools/ffmpeg_mux.c:166-201 | repairing again changes nothing, whatever the packets |
| LoopTs.Demuxer.TsFixup | fftools/ffmpeg_demux.c:425-446 | the shift of a packet and the first and last timestamps are as specified |
| LoopTs.Demuxer.SeekToStart | fftools/ffmpeg_demux.c:198-223 | the shift of the next pass and the passes left are as specified |
| LoopTs.ShiftIsNear | fftools/ffmpeg_demux.c:425-430 | a packet is shifted by the length found so far, to within half a unit of its time base |
| LoopTs.NotedExactly | fftools/ffmpeg_demux.c:426-445 | max_pts becomes the later of itself and the end of the packet, min_pts the earlier of itself and its begin, as times |
| LoopTs.RestartedExactly | fftools/ffmpeg_demux.c:207-218 | a restart takes the decoders' end if it is later, and the length from there back to min_pts, to within half a unit |
| LoopTs.PassReaches | fftools/ffmpeg_demux.c:433-439 | no packet of a pass ends after max_pts |
| LoopTs.ShiftedPastTheEnd | fftools/ffmpeg_demux.c:425-430 | a packet of a later pass comes out at or after everything before the pass exactly when it is at or after the first timestamp of the file |
| LoopTs.PassesSettle | fftools/ffmpeg_demux.c:198-223 | after any number of passes the first timestamp is that of the first pass and the shift is the distance from it to the last |
| LoopTs.PassesDoNotOverlap | fftools/ffmpeg_demux.c:425-449 | every timestamp of a later pass is at or after the greatest before that pass, and the first timestamp never changes |
| LoopTs.OverlapIsBounded | fftools/ffmpeg_demux.c:425-449 | with streams in any time bases, after any number of passes, a packet of the file comes out at most half a unit of each of two time bases before the end of those passes |
| AudioTb.AudioDecoder.AudioSamplerateUpdate | fftools/ffmpeg_dec.c:205-246 | the time base, stored timestamp and duration are as specified, with av_gcd computed by its own loop |
| AudioTb.AudioDecoder.AudioTsProcess | fftools/ffmpeg_dec.c:248-283 | the same for the prediction and the timestamp given to the frame |
| AudioTb.FallsBackExactly | fftools/ffmpeg_dec.c:217-226 | the program falls back exactly when the least common multiple and the new rate together pass INT_MAX |
| AudioTb.FallsBackEarly | fftools/ffmpeg_dec.c:217-226 | two rates for which it falls back although their least common multiple is an int |
| AudioTb.CandidateIsLcm | fftools/ffmpeg_dec.c:217-227 | otherwise the candidate is the least common multiple of the old denominator and the new rate |
| AudioTb.TimeBaseExactly | fftools/ffmpeg_dec.c:205-233 | the denominator after a change of rate is that of the frame's own time base if it can express the times counted before and the new rate, and otherwise the least that can, or the fallback |
| AudioTb.MovedIsNear | fftools/ffmpeg_dec.c:279-282 | a timestamp that is moved, such as the one handed on, stays within half a unit |
| AudioTb.UpdateIsExact | fftools/ffmpeg_dec.c:235-242 | without a fallback a change of rate keeps the stored times exactly and can express both rates |
| AudioTb.EveryRateIsExpressed | fftools/ffmpeg_dec.c:205-246 | until a fallback the denominator is divisible by every rate seen, whatever timestamps the frames carry |
| AudioTb.EveryUpdateIsExact | fftools/ffmpeg_dec.c:235-242 | so no change of rate in such a run changes the times of the stored timestamp and duration |
| AudioTb.MovedExactly | fftools/ffmpeg_dec.c:235-239 | moving a stored timestamp is exact precisely when it falls on a unit of the new time base |
| AudioTb.PredictionIsExact | fftools/ffmpeg_dec.c:248-277 | until a fallback the prediction is the exact end of the last frame: its timestamp, or the end of the frame before it, and its length |
| AudioTb.PredictionIsTotal | fftools/ffmpeg_dec.c:248-277 | without any timestamps it is the exact sum of the frames' lengths |
| AudioTb.FallbackIsLcm | fftools/ffmpeg_dec.c:224-225 | the fallback is the least common multiple of 192000 and 44100 |
| AudioTb.CommonRatesNeverBreak | fftools/ffmpeg_dec.c:217-233 | streams at the usual rates never fall back, as long as every frame's own time base that is taken over divides the fallback |
| AudioTb.UsualTimeBasesNeverBreak | fftools/ffmpeg_dec.c:217-233 | in particular when the frames come in time bases 1/n that divide it, such as those of their sample rates |
| Divisors.AvGcd | libavutil/mathematics.c:37-56 | the binary algorithm computes the greatest common divisor of the absolute values, and returns the other number when one is zero |
| Divisors.GcdIsGreatest | libavutil/mathematics.c:37-56 | every common divisor divides it |
| Divisors.LcmIsLeast | fftools/ffmpeg_dec.c:217-227 | every common multiple is a multiple of the least |

## Left out

- Connect.Links.StartPrepare: takes as given that no filtergraph input leads up into a loop of codecs alone, where the search of the program would not end. The program sees to that by creating loopback decoders after the outputs (`fftools/ffmpeg_opt.c:1522-1534`); the checks of `start_prepare` do not.
- Schedule.Scheduler.constructor: takes as given besides that no muxed stream leads up into one, where no update would end.
- Connect.Links.SchConnect: the kinds and indices that the program asserts are preconditions, as is that the sink is free.
- PreMux.SchMux.MuxTaskStart: the muxer thread may close streams at any time during the flush, but what it has already taken out of the queue is not distinguished from what is still in it.
- Handoff.PrefixOfSent: the bound of the muxer's queue is not modelled, since a send that waits for room is a step not yet taken.
- Flush.OneUnanswered: a packet without data or side data other than a flush would be taken for one; such packets are assumed not to reach decoders that answer, which are audio decoders only (`fftools/ffmpeg_demux.c:998`).
- Flush.WaitEnds: counts the steps of the decoder; that its thread runs and that a frozen queue is thawed at some time is not shown.
- Lifecycle.StoppedMeansCleaned: that the task functions return when asked to is not modelled.
- EndOfFile.FanOut.Send: what each destination says to a packet is an input.
- FrameRate.Conservation: the consumer of the frames is taken to accept them all; when it ends the loop stops and the counts are no longer of interest.
- FrameRate.FpsConv.FgOutputFrame: video outputs only; for audio the function rescales the timestamp and sends the frame.
- FrameRate.DriftIsBounded: without a drop threshold and as long as no duplication is skipped; either lets the output leave the bound.
- AudioTb.PredictionIsExact: what `av_rescale_delta` makes of the timestamp of a frame that has one is an input.
- LoopTs.PassesDoNotOverlap: for streams in one time base; `OverlapIsBounded` is the statement for several.
- Lifecycle.StartFindsNoThread: that a muxer's task is started at most once is shown in `MuxInit` (`AtMostOnce`), and taken from there.
- LoopTs.Demuxer.TsFixup: only the pts; the dts of a packet is shifted by the same amount.
- The rounding of doubles and floats, and the wrap-around of 64-bit timestamps.
- `av_rescale_delta`, also where streamcopied audio is rescaled before muxing, and the wrap correction, discontinuity correction and dts estimate of the demuxer.
- Removing filtergraphs, freeing the scheduler, allocation failures and logging.
- Sync queues between encoders and the frame chunking they do; opening encoders; the heartbeat packets of subtitles.
- The waiting and waking inside thread queues and message queues; which calls freeze and thaw a queue is not tied to the decisions of `Schedule` in `Flush`, where either may happen at any time.
- Schedule.Scheduler.Terminate: runs alone. `Stopping` puts it beside updates, whose marks are arbitrary there; the queues behind one demuxer are frozen in one step.
- Wall-clock behaviour: `-readrate` and the timeout of `sch_wait`.
- The key-frame flag that a dropped key frame passes on, and the dummy frame sent when an output never had one.
- Codecs, filters, bitstream filters and containers.
