/** Senders and the start of a muxer running side by side. A sender that finds the muxer
    not started takes the lock and buffers its packet; the starter holds the lock while it
    flushes the buffers; then senders reach the queue directly.

    Every action is atomic in the program: a read of an atomic flag, a region under the
    lock, or one queue operation. */
module Handoff {
  import opened PreMux
  import Timestamps

  /** Where a call of send_to_mux stands. */
  datatype Phase =
    | Idle
    | Checked(item: Item) // found the muxer not started, is about to take the lock
    | Direct(item: Item)  // is about to use the queue

  /** Open: may send anything. Broken: a send has failed, only end of file may follow.
      Ended: end of file was sent. */
  datatype Sender = Open | Broken | Ended

  datatype PreMuxQueue = PreMuxQueue(fifo: seq<Item>, capacity: nat, dataSize: nat,
                                     maxPackets: nat, dataThreshold: nat)

  /** A stream of the muxer. The last four record its history: the items handed to
      send_to_mux, whether one did not fit the FIFO, whether the end of file did not, and
      whether the muxer refused a packet. */
  datatype Stream = Stream(queue: PreMuxQueue, phase: Phase, sender: Sender, initEof: bool,
                           sendFinished: bool, recvFinished: bool,
                           sent: seq<Item>, overflowed: bool, lostEof: bool, refused: bool)

  datatype Starter = NotStarted | Flushing | Started

  /** An item that reached the queue, from the FIFO or directly. */
  datatype Entry = Entry(stream: nat, item: Item, direct: bool)

  datatype State = State(streams: seq<Stream>, starter: Starter, log: seq<Entry>)

  datatype Action =
    | Call(i: nat, item: Item) // send_to_mux begins and reads mux_started
    | Lock(i: nat)             // the region under mux_ready_lock
    | Deliver(i: nat)          // tq_send or tq_send_finish
    | Begin                    // mux_task_start has created the thread, the lock is held
    | Flush(i: nat)            // one packet leaves FIFO i
    | Finish                   // mux_started is set
    | Close(i: nat)            // the muxer thread closes a stream

  // ---- Buffering ----

  function ItemSize(x: Item): nat {
    if x.Data? then x.pkt.size else 0
  }

  function TotalSize(f: seq<Item>): nat {
    if f == [] then 0 else TotalSize(f[..|f| - 1]) + ItemSize(f[|f| - 1])
  }

  /** The capacity after mux_queue_packet made room, or None when it may not. */
  function Grown(q: PreMuxQueue, x: Item): (capacity: nat) {
    if |q.fifo| < q.capacity then q.capacity
    else
      var packets := |q.fifo|;
      var threshReached := q.dataSize + ItemSize(x) > q.dataThreshold;
      if threshReached && q.maxPackets < 2 * packets then q.maxPackets else 2 * packets
  }

  predicate HasRoom(q: PreMuxQueue, x: Item) {
    |q.fifo| < Grown(q, x)
  }

  /** mux_queue_packet when there is room. */
  function Buffered(q: PreMuxQueue, x: Item): PreMuxQueue {
    q.(fifo := q.fifo + [x], capacity := Grown(q, x), dataSize := q.dataSize + ItemSize(x))
  }

  // ---- Steps ----

  predicate Enabled(s: State, a: Action) {
    match a
    case Call(i, x) => i < |s.streams| && MayCall(s.streams[i], x)
    case Lock(i) => i < |s.streams| && s.streams[i].phase.Checked? && s.starter != Flushing
    case Deliver(i) => i < |s.streams| && s.streams[i].phase.Direct?
    case Begin => s.starter == NotStarted
    case Flush(i) => i < |s.streams| && s.starter == Flushing && s.streams[i].queue.fifo != []
    case Finish => s.starter == Flushing && forall i | 0 <= i < |s.streams| :: s.streams[i].queue.fifo == []
    case Close(i) => i < |s.streams| && s.starter != NotStarted
  }

  predicate MayCall(m: Stream, x: Item) {
    m.phase == Idle && (m.sender == Open || (m.sender == Broken && x == Eof))
  }

  function Called(m: Stream, x: Item, started: bool): Stream {
    m.(phase := if started then Direct(x) else Checked(x),
       sender := if x == Eof then Ended else m.sender,
       sent := m.sent + [x])
  }

  /** A failed send of a packet leaves the sender nothing but end of file to send. */
  function Failed(m: Stream): Sender {
    if m.sender == Open then Broken else m.sender
  }

  function Overflowed(m: Stream): Stream
    requires m.phase.Checked?
  {
    m.(phase := Idle, sender := Failed(m), overflowed := true, lostEof := m.lostEof || m.phase.item == Eof)
  }

  function Locked(m: Stream, started: bool): Stream
    requires m.phase.Checked?
  {
    var x := m.phase.item;
    if started then m.(phase := Direct(x))
    else if HasRoom(m.queue, x) then m.(phase := Idle, queue := Buffered(m.queue, x))
    else Overflowed(m)
  }

  /** Whether the queue takes an item: end of file always, a packet unless an end is closed. */
  predicate Takes(m: Stream, x: Item) {
    x == Eof || !(m.initEof || m.sendFinished || m.recvFinished)
  }

  function Delivered(m: Stream): Stream
    requires m.phase.Direct?
  {
    var x := m.phase.item;
    if x == Eof then m.(phase := Idle, sendFinished := true)
    else if Takes(m, x) then m.(phase := Idle)
    else m.(phase := Idle, sender := Failed(m), refused := true, sendFinished := true)
  }

  function Flushed(m: Stream): Stream
    requires m.queue.fifo != []
  {
    var x := m.queue.fifo[0];
    var q := m.queue.(fifo := m.queue.fifo[1..]);
    if x == Eof then m.(queue := q, sendFinished := true)
    else if Takes(m, x) then m.(queue := q)
    else m.(queue := q, initEof := true, refused := true, sendFinished := true)
  }

  function Apply(s: State, a: Action): State
    requires Enabled(s, a)
  {
    match a
    case Call(i, x) => Set(s, i, Called(s.streams[i], x, s.starter == Started))
    case Lock(i) => Set(s, i, Locked(s.streams[i], s.starter == Started))
    case Deliver(i) =>
      var m := s.streams[i];
      Push(Set(s, i, Delivered(m)), i, m.phase.item, Takes(m, m.phase.item), true)
    case Begin => s.(starter := Flushing)
    case Flush(i) =>
      var m := s.streams[i];
      Push(Set(s, i, Flushed(m)), i, m.queue.fifo[0], Takes(m, m.queue.fifo[0]), false)
    case Finish => s.(starter := Started)
    case Close(i) => Set(s, i, s.streams[i].(recvFinished := true))
  }

  function Set(s: State, i: nat, m: Stream): State
    requires i < |s.streams|
  {
    s.(streams := s.streams[i := m])
  }

  function Push(s: State, i: nat, x: Item, taken: bool, direct: bool): State {
    if taken then s.(log := s.log + [Entry(i, x, direct)]) else s
  }

  predicate IsStart(s: State) {
    && s.starter == NotStarted && s.log == []
    && forall i | 0 <= i < |s.streams| :: IsNew(s.streams[i])
  }

  predicate IsNew(m: Stream) {
    && m.queue.fifo == [] && m.queue.capacity == 8 && m.queue.dataSize == 0
    && m.phase == Idle && m.sender == Open && m.sent == []
    && !m.initEof && !m.sendFinished && !m.recvFinished && !m.overflowed && !m.lostEof && !m.refused
  }

  predicate IsRun(s: State, actions: seq<Action>, t: State)
    decreases |actions|
  {
    if actions == [] then s == t
    else Enabled(s, actions[0]) && IsRun(Apply(s, actions[0]), actions[1..], t)
  }

  // ---- What reached the queue ----

  /** The items of one stream that reached the queue, in order. */
  function Out(log: seq<Entry>, i: nat): (r: seq<Item>) {
    if log == [] then []
    else
      var e := log[|log| - 1];
      Out(log[..|log| - 1], i) + if e.stream == i then [e.item] else []
  }

  lemma OutAppend(log: seq<Entry>, e: Entry, i: nat)
    ensures Out(log + [e], i) == Out(log, i) + if e.stream == i then [e.item] else []
  {
    assert (log + [e])[..|log|] == log;
  }

  lemma {:induction false} PacketsAppend(f: seq<Item>, g: seq<Item>)
    ensures Packets(f + g) == Packets(f) + Packets(g)
  {
    if f == [] {
      assert f + g == g;
    } else {
      PacketsAppend(f[1..], g);
      assert (f + g)[1..] == f[1..] + g && (f + g)[0] == f[0];
      Regroup(if f[0].Data? then [f[0].pkt] else [], Packets(f[1..]), Packets(g));
    }
  }

  // ---- The invariant of a stream ----

  function InFlight(m: Stream): seq<Item> {
    if m.phase == Idle then [] else [m.phase.item]
  }

  /** Sent and neither lost nor delivered yet. */
  function Pending(m: Stream): seq<Item> {
    m.queue.fifo + InFlight(m)
  }

  ghost predicate Good(m: Stream, out: seq<Item>, starter: Starter) {
    && Protocol(m, starter)
    && Sizes(m, starter)
    && (m.refused ==> AfterRefusal(m, out))
    && (!m.refused && m.overflowed ==> AfterOverflow(m, out))
    && (!m.refused && !m.overflowed ==> Lossless(m, out))
  }

  ghost predicate Protocol(m: Stream, starter: Starter) {
    && EofLast(m.sent) && (m.sender == Ended <==> Eof in m.sent)
    && EofLast(m.queue.fifo) && (Eof in m.queue.fifo ==> m.phase == Idle && m.sender == Ended)
    && (m.phase != Idle && m.phase.item == Eof ==> m.sender == Ended)
    && (starter == Started ==> m.queue.fifo == [])
    && (m.phase.Direct? ==> starter == Started)
    && (m.initEof ==> m.refused) && (starter != Started && m.refused ==> m.initEof)
    && (starter == NotStarted ==> !m.refused && !m.sendFinished && !m.recvFinished)
  }

  /** As long as the FIFO only grows, data_size is what it holds. */
  ghost predicate Sizes(m: Stream, starter: Starter) {
    starter == NotStarted ==>
      && m.queue.dataSize == TotalSize(m.queue.fifo)
      && |m.queue.fifo| <= m.queue.capacity && m.queue.capacity >= 8
  }

  ghost predicate Lossless(m: Stream, out: seq<Item>) {
    && out + Pending(m) == m.sent
    && (m.sendFinished <==> Eof in out)
  }

  /** A packet or the end of file did not fit: at most end of file follows. */
  ghost predicate AfterOverflow(m: Stream, out: seq<Item>) {
    && |out| + |Pending(m)| < |m.sent|
    && Packets(out) + Packets(Pending(m)) <= Packets(m.sent)
    && (m.phase == Idle || m.phase.item == Eof) && m.sender != Open
    && (m.sendFinished <==> Eof in out) && (Eof in out ==> m.queue.fifo == [])
  }

  /** The muxer has closed the stream: nothing but end of file reaches it. */
  ghost predicate AfterRefusal(m: Stream, out: seq<Item>) {
    && m.sendFinished && m.recvFinished
    && |Packets(out)| < |Packets(m.sent)|
    && Packets(out) <= Packets(m.sent)
    && (!m.initEof ==> m.sender != Open && (m.phase == Idle || m.phase.item == Eof))
  }

  lemma NewIsGood(m: Stream)
    requires IsNew(m)
    ensures Good(m, [], NotStarted)
  {
  }

  lemma CalledIsGood(m: Stream, out: seq<Item>, starter: Starter, x: Item)
    requires Good(m, out, starter) && MayCall(m, x)
    ensures Good(Called(m, x, starter == Started), out, starter)
  {
    var m' := Called(m, x, starter == Started);
    assert Protocol(m', starter);
    if m.refused {
      PacketsAppend(m.sent, [x]);
    } else if m.overflowed {
      CalledAfterOverflow(m, out, starter == Started, x);
    } else {
      assert Pending(m') == m.queue.fifo + [x] && Pending(m) == m.queue.fifo;
      Regroup(out, m.queue.fifo, [x]);
    }
  }

  lemma CalledAfterOverflow(m: Stream, out: seq<Item>, started: bool, x: Item)
    requires AfterOverflow(m, out) && MayCall(m, x)
    ensures AfterOverflow(Called(m, x, started), out)
  {
    PacketsAppend(m.sent, [x]);
    PacketsAppend(Pending(m), [x]);
    assert Pending(Called(m, x, started)) == Pending(m) + [x];
    assert x == Eof;
  }

  lemma LockedIsGood(m: Stream, out: seq<Item>, starter: Starter)
    requires Good(m, out, starter) && m.phase.Checked? && starter != Flushing
    ensures Good(Locked(m, starter == Started), out, starter)
  {
    if starter == NotStarted {
      if HasRoom(m.queue, m.phase.item) {
        BufferedIsGood(m, out, starter);
      } else {
        OverflowIsGood(m, out, starter);
      }
    }
  }

  lemma BufferedIsGood(m: Stream, out: seq<Item>, starter: Starter)
    requires Good(m, out, NotStarted) && m.phase.Checked? && starter == NotStarted && HasRoom(m.queue, m.phase.item)
    ensures Good(m.(phase := Idle, queue := Buffered(m.queue, m.phase.item)), out, NotStarted)
  {
    var f, x := m.queue.fifo, m.phase.item;
    var m' := m.(phase := Idle, queue := Buffered(m.queue, x));
    assert Pending(m') == Pending(m);
    assert (f + [x])[..|f|] == f;
    assert EofLast(f + [x]);
  }

  lemma OverflowIsGood(m: Stream, out: seq<Item>, starter: Starter)
    requires Good(m, out, NotStarted) && m.phase.Checked? && starter == NotStarted
    ensures Good(Overflowed(m), out, NotStarted)
  {
    var f, x := m.queue.fifo, m.phase.item;
    PacketsAppend(f, [x]);
    PacketsAppend(out, f + [x]);
    assert Packets(out) + Packets(f) <= Packets(out) + Packets(f + [x]);
    assert f + [] == f;
  }

  lemma DeliveredIsGood(m: Stream, out: seq<Item>)
    requires Good(m, out, Started) && m.phase.Direct?
    ensures Good(Delivered(m), out + if Takes(m, m.phase.item) then [m.phase.item] else [], Started)
  {
    var x := m.phase.item;
    assert Pending(m) == [x] && Pending(Delivered(m)) == [];
    assert out + [] == out;
    if Takes(m, x) {
      DeliveredTaken(m, out);
    } else if !m.refused {
      PacketsAppend(out, [x]);
      assert out + [x] == m.sent;
      assert !m.sendFinished by { if Eof in out { NothingAfterEof(m, out, Started); } }
    }
  }

  lemma DeliveredTaken(m: Stream, out: seq<Item>)
    requires Good(m, out, Started) && m.phase.Direct? && Takes(m, m.phase.item)
    ensures Good(Delivered(m), out + [m.phase.item], Started)
  {
    var x := m.phase.item;
    PacketsAppend(out, [x]);
    assert Pending(m) == [x] && Pending(Delivered(m)) == [];
    assert out + [x] + [] == out + [x];
    InAppend(out, x);
  }

  lemma FlushedIsGood(m: Stream, out: seq<Item>)
    requires Good(m, out, Flushing) && m.queue.fifo != []
    ensures Good(Flushed(m), out + if Takes(m, m.queue.fifo[0]) then [m.queue.fifo[0]] else [], Flushing)
  {
    var x := m.queue.fifo[0];
    assert m.queue.fifo == [x] + m.queue.fifo[1..];
    assert Pending(m) == [x] + Pending(Flushed(m));
    PacketsAppend([x], Pending(Flushed(m)));
    PacketsAppend(out, [x]);
    if m.refused {
      assert out + [] == out;
    } else if Takes(m, x) {
      FlushTaken(m, out);
    } else {
      FlushRefusal(m, out);
      assert out + [] == out;
    }
  }

  lemma NothingAfterEof(m: Stream, out: seq<Item>, starter: Starter)
    requires Good(m, out, starter) && !m.refused && !m.overflowed && Eof in out
    ensures Pending(m) == []
  {
    var k :| 0 <= k < |out| && out[k] == Eof;
    assert (out + Pending(m))[k] == Eof;
  }

  lemma FlushTaken(m: Stream, out: seq<Item>)
    requires Good(m, out, Flushing) && m.queue.fifo != [] && !m.refused && Takes(m, m.queue.fifo[0])
    ensures Good(Flushed(m), out + [m.queue.fifo[0]], Flushing)
  {
    var x := m.queue.fifo[0];
    var m' := Flushed(m);
    assert m.queue.fifo == [x] + m'.queue.fifo;
    assert Protocol(m', Flushing);
    assert Pending(m) == [x] + Pending(m');
    if m.overflowed {
      PacketsAppend([x], Pending(m'));
      PacketsAppend(out, [x]);
      TakenAfterOverflow(m, out);
    } else {
      assert out + Pending(m) == out + [x] + Pending(m');
    }
  }

  lemma TakenAfterOverflow(m: Stream, out: seq<Item>)
    requires AfterOverflow(m, out) && m.queue.fifo != [] && EofLast(m.queue.fifo) && !m.sendFinished
    requires Packets(Pending(m)) == Packets([m.queue.fifo[0]]) + Packets(Pending(Flushed(m)))
    requires Packets(out + [m.queue.fifo[0]]) == Packets(out) + Packets([m.queue.fifo[0]])
    requires Takes(m, m.queue.fifo[0])
    ensures AfterOverflow(Flushed(m), out + [m.queue.fifo[0]])
  {
    var x := m.queue.fifo[0];
    var m' := Flushed(m);
    Regroup(Packets(out), Packets([x]), Packets(Pending(m')));
    assert |Pending(m)| == 1 + |Pending(m')|;
    assert x == Eof ==> m'.queue.fifo == [];
    InAppend(out, x);
  }

  lemma InAppend<T>(a: seq<T>, x: T)
    ensures forall y :: y in a + [x] <==> y in a || y == x
  {
  }

  lemma FlushRefusal(m: Stream, out: seq<Item>)
    requires Good(m, out, Flushing) && m.queue.fifo != [] && !m.refused && !Takes(m, m.queue.fifo[0])
    ensures Good(Flushed(m), out, Flushing)
  {
    var x := m.queue.fifo[0];
    var m' := Flushed(m);
    assert Pending(m) == [x] + Pending(m');
    PacketsAppend([x], Pending(m'));
    PacketsAppend(out, Pending(m));
    assert |Packets([x])| == 1;
    assert !m.sendFinished by { if !m.overflowed && Eof in out { NothingAfterEof(m, out, Flushing); } }
  }

  lemma CloseIsGood(m: Stream, out: seq<Item>, starter: Starter)
    requires Good(m, out, starter) && starter != NotStarted
    ensures Good(m.(recvFinished := true), out, starter)
  {
    assert Pending(m.(recvFinished := true)) == Pending(m);
  }

  // ---- Every run ----

  ghost predicate Inv(s: State) {
    && (forall i | 0 <= i < |s.streams| :: Good(s.streams[i], Out(s.log, i), s.starter))
    && (forall k | 0 <= k < |s.log| :: s.log[k].stream < |s.streams|)
    && (s.starter == NotStarted ==> s.log == [])
    && (s.starter != Started ==> forall k | 0 <= k < |s.log| :: !s.log[k].direct)
    && (forall j, k | 0 <= j < k < |s.log| && s.log[j].direct :: s.log[k].direct)
  }

  lemma StartHolds(s: State)
    requires IsStart(s)
    ensures Inv(s)
  {
    forall i | 0 <= i < |s.streams| ensures Good(s.streams[i], Out(s.log, i), s.starter) {
      NewIsGood(s.streams[i]);
    }
  }

  /** Only stream i changes, and at most one of its items reaches the queue. */
  lemma StreamStep(s: State, i: nat, m: Stream, x: Item, taken: bool, direct: bool)
    requires Inv(s) && i < |s.streams|
    requires taken ==> s.starter == if direct then Started else Flushing
    requires Good(m, Out(s.log, i) + if taken then [x] else [], s.starter)
    ensures Inv(Push(Set(s, i, m), i, x, taken, direct))
  {
    hide Good, Out;
    var t := Push(Set(s, i, m), i, x, taken, direct);
    forall k | 0 <= k < |t.streams| ensures Good(t.streams[k], Out(t.log, k), t.starter) {
      OutGrows(s, i, m, x, taken, direct, k);
    }
  }

  lemma OutGrows(s: State, i: nat, m: Stream, x: Item, taken: bool, direct: bool, k: nat)
    requires i < |s.streams|
    ensures var t := Push(Set(s, i, m), i, x, taken, direct);
            && (k == i ==> Out(t.log, k) == Out(s.log, k) + if taken then [x] else [])
            && (k != i ==> Out(t.log, k) == Out(s.log, k))
  {
    OutAppend(s.log, Entry(i, x, direct), k);
    assert Out(s.log, k) + [] == Out(s.log, k);
  }

  lemma StepKeeps(s: State, a: Action)
    requires Inv(s) && Enabled(s, a)
    ensures Inv(Apply(s, a))
  {
    match a
    case Call(i, x) =>
      CalledIsGood(s.streams[i], Out(s.log, i), s.starter, x);
      QuietStep(s, i, Called(s.streams[i], x, s.starter == Started));
    case Lock(i) =>
      LockedIsGood(s.streams[i], Out(s.log, i), s.starter);
      QuietStep(s, i, Locked(s.streams[i], s.starter == Started));
    case Deliver(i) =>
      var m := s.streams[i];
      DeliveredIsGood(m, Out(s.log, i));
      StreamStep(s, i, Delivered(m), m.phase.item, Takes(m, m.phase.item), true);
    case Begin => BeginKeeps(s);
    case Flush(i) =>
      var m := s.streams[i];
      FlushedIsGood(m, Out(s.log, i));
      StreamStep(s, i, Flushed(m), m.queue.fifo[0], Takes(m, m.queue.fifo[0]), false);
    case Finish => FinishKeeps(s);
    case Close(i) =>
      CloseIsGood(s.streams[i], Out(s.log, i), s.starter);
      QuietStep(s, i, s.streams[i].(recvFinished := true));
  }

  lemma QuietStep(s: State, i: nat, m: Stream)
    requires Inv(s) && i < |s.streams| && Good(m, Out(s.log, i), s.starter)
    ensures Inv(Set(s, i, m))
  {
    assert Out(s.log, i) + [] == Out(s.log, i);
    StreamStep(s, i, m, Eof, false, false);
  }

  lemma BeginKeeps(s: State)
    requires Inv(s) && s.starter == NotStarted
    ensures Inv(s.(starter := Flushing))
  {
  }

  lemma FinishKeeps(s: State)
    requires Inv(s) && Enabled(s, Finish)
    ensures Inv(s.(starter := Started))
  {
  }

  lemma {:induction false} RunKeeps(s: State, actions: seq<Action>, t: State)
    requires Inv(s) && IsRun(s, actions, t)
    ensures Inv(t)
    decreases |actions|
  {
    if actions != [] {
      StepKeeps(s, actions[0]);
      RunKeeps(Apply(s, actions[0]), actions[1..], t);
    }
  }

  // ---- Results ----

  lemma RunIsGood(s: State, actions: seq<Action>, t: State, i: nat)
    requires IsStart(s) && IsRun(s, actions, t) && i < |t.streams|
    ensures Good(t.streams[i], Out(t.log, i), t.starter)
  {
    StartHolds(s);
    RunKeeps(s, actions, t);
  }

  /** In every interleaving the packets of a stream that reach the queue are, in order, a
      prefix of those sent. Nothing is missing but what is still buffered or in flight,
      unless the muxer refused a packet or the FIFO overflowed. */
  lemma PrefixOfSent(s: State, actions: seq<Action>, t: State, i: nat)
    requires IsStart(s) && IsRun(s, actions, t) && i < |t.streams|
    ensures Packets(Out(t.log, i)) <= Packets(t.streams[i].sent)
    ensures !t.streams[i].refused && !t.streams[i].overflowed ==>
              Out(t.log, i) + Pending(t.streams[i]) == t.streams[i].sent
    ensures t.streams[i].refused ==> t.streams[i].recvFinished
  {
    RunIsGood(s, actions, t, i);
    GoodIsPrefix(t.streams[i], Out(t.log, i), t.starter);
  }

  lemma GoodIsPrefix(m: Stream, out: seq<Item>, starter: Starter)
    requires Good(m, out, starter)
    ensures Packets(out) <= Packets(m.sent)
  {
    if !m.refused && !m.overflowed {
      PacketsAppend(out, Pending(m));
    }
  }

  /** Once the muxer runs and the sender is at rest, everything sent has arrived exactly
      when nothing was refused and nothing overflowed. */
  lemma AllDelivered(s: State, actions: seq<Action>, t: State, i: nat)
    requires IsStart(s) && IsRun(s, actions, t) && i < |t.streams|
    requires t.starter == Started && t.streams[i].phase == Idle
    ensures Out(t.log, i) == t.streams[i].sent <==> !t.streams[i].refused && !t.streams[i].overflowed
  {
    RunIsGood(s, actions, t, i);
  }

  /** No packet sent directly comes before one that waited in a FIFO. */
  lemma NoOvertaking(s: State, actions: seq<Action>, t: State, j: nat, k: nat)
    requires IsStart(s) && IsRun(s, actions, t)
    requires j < |t.log| && k < |t.log| && t.log[j].direct && !t.log[k].direct
    ensures k < j
    ensures forall i | 0 <= i < |t.streams| :: t.streams[i].queue.fifo == []
  {
    StartHolds(s);
    RunKeeps(s, actions, t);
  }

  /** A packet overflows exactly when the FIFO is full, holds max_packets or more and the
      data in it would pass the threshold; data_size, which the flush does not lower, is
      then the size of what the FIFO holds. */
  lemma OverflowExactly(s: State, actions: seq<Action>, t: State, i: nat)
    requires IsStart(s) && IsRun(s, actions, t) && i < |t.streams| && t.starter == NotStarted
    requires t.streams[i].phase.Checked?
    ensures var q := t.streams[i].queue;
            var x := t.streams[i].phase.item;
            (!t.streams[i].overflowed && Locked(t.streams[i], false).overflowed) <==>
            (!t.streams[i].overflowed && |q.fifo| == q.capacity && q.maxPackets <= |q.fifo| &&
             TotalSize(q.fifo) + ItemSize(x) > q.dataThreshold)
  {
    RunIsGood(s, actions, t, i);
  }

  /** What becomes of an item that is buffered: it goes to the end of the FIFO, whose room
      doubles when it is full; past the threshold it grows to max_packets at most. */
  lemma RoomExactly(s: State, actions: seq<Action>, t: State, i: nat)
    requires IsStart(s) && IsRun(s, actions, t) && i < |t.streams| && t.starter == NotStarted
    requires t.streams[i].phase.Checked?
    ensures var q, x := t.streams[i].queue, t.streams[i].phase.item;
            var q' := Apply(t, Lock(i)).streams[i].queue;
            var past := TotalSize(q.fifo) + ItemSize(x) > q.dataThreshold;
            if |q.fifo| < q.capacity then q'.fifo == q.fifo + [x] && q'.capacity == q.capacity
            else if !past || 2 * q.capacity <= q.maxPackets
            then q'.fifo == q.fifo + [x] && q'.capacity == 2 * q.capacity
            else if q.capacity < q.maxPackets then q'.fifo == q.fifo + [x] && q'.capacity == q.maxPackets
            else q' == q
  {
    RunIsGood(s, actions, t, i);
  }

  lemma PacketsStay(s: State, j: nat, x: Item, taken: bool, direct: bool, i: nat)
    requires taken && j == i ==> x == Eof
    ensures Packets(Out(Push(s, j, x, taken, direct).log, i)) == Packets(Out(s.log, i))
  {
    if taken {
      OutAppend(s.log, Entry(j, x, direct), i);
      PacketsAppend(Out(s.log, i), if j == i then [x] else []);
    }
  }

  lemma StepKeepsClosed(s: State, a: Action, i: nat)
    requires Enabled(s, a) && i < |s.streams| && s.streams[i].recvFinished
    ensures i < |Apply(s, a).streams| && Apply(s, a).streams[i].recvFinished
    ensures Packets(Out(Apply(s, a).log, i)) == Packets(Out(s.log, i))
  {
    hide Out, Packets;
    if a.Deliver? {
      var m := s.streams[a.i];
      PacketsStay(Set(s, a.i, Delivered(m)), a.i, m.phase.item, Takes(m, m.phase.item), true, i);
    } else if a.Flush? {
      var m := s.streams[a.i];
      PacketsStay(Set(s, a.i, Flushed(m)), a.i, m.queue.fifo[0], Takes(m, m.queue.fifo[0]), false, i);
    }
  }

  /** Once the muxer has closed a stream, no further packet of it reaches the queue. */
  lemma {:induction false} NothingAfterClose(s: State, actions: seq<Action>, t: State, i: nat)
    requires IsRun(s, actions, t) && i < |s.streams| && s.streams[i].recvFinished
    ensures i < |t.streams| && Packets(Out(t.log, i)) == Packets(Out(s.log, i))
    decreases |actions|
  {
    hide Apply, Enabled;
    if actions != [] {
      StepKeepsClosed(s, actions[0], i);
      NothingAfterClose(Apply(s, actions[0]), actions[1..], t, i);
    }
  }

  /** tq_send never meets a stream its sender has finished, neither in the flush nor in a
      direct send: the only refusal is that of a closed stream. */
  lemma NeverInvalid(s: State, actions: seq<Action>, t: State, i: nat)
    requires IsStart(s) && IsRun(s, actions, t) && i < |t.streams|
    requires var m := t.streams[i];
             || (m.phase.Direct? && m.phase.item.Data?)
             || (t.starter == Flushing && m.queue.fifo != [] && m.queue.fifo[0].Data?)
    ensures t.streams[i].sendFinished ==> t.streams[i].initEof
  {
    RunIsGood(s, actions, t, i);
    var m, out := t.streams[i], Out(t.log, i);
    if !m.refused && !m.overflowed && Eof in out {
      NothingAfterEof(m, out, t.starter);
    }
  }

  // ---- The end of file ----

  /** The end of file, once sent, is lost, on its way or there. */
  ghost predicate EofKept(m: Stream, out: seq<Item>) {
    && (Eof in m.sent ==> m.lostEof || Eof in out || Eof in Pending(m))
    && (m.lostEof ==> Eof in m.sent && Eof !in out && Eof !in Pending(m))
  }

  lemma CalledKeepsEof(m: Stream, out: seq<Item>, starter: Starter, x: Item)
    requires Good(m, out, starter) && EofKept(m, out) && MayCall(m, x)
    ensures EofKept(Called(m, x, starter == Started), out)
  {
    assert Pending(Called(m, x, starter == Started)) == Pending(m) + [x];
  }

  lemma LockedKeepsEof(m: Stream, out: seq<Item>, starter: Starter)
    requires Good(m, out, starter) && EofKept(m, out) && m.phase.Checked? && starter != Flushing
    requires starter == NotStarted ==> out == []
    ensures EofKept(Locked(m, starter == Started), out)
  {
    var x, m' := m.phase.item, Locked(m, starter == Started);
    assert Pending(m) == m.queue.fifo + [x];
    if starter == NotStarted && !HasRoom(m.queue, x) {
      assert Pending(m') == m.queue.fifo;
    } else {
      assert Pending(m') == Pending(m);
    }
  }

  lemma DeliveredKeepsEof(m: Stream, out: seq<Item>)
    requires EofKept(m, out) && m.phase.Direct?
    ensures EofKept(Delivered(m), out + if Takes(m, m.phase.item) then [m.phase.item] else [])
  {
    var x := m.phase.item;
    assert Pending(m) == m.queue.fifo + [x] && Pending(Delivered(m)) == m.queue.fifo;
  }

  lemma FlushedKeepsEof(m: Stream, out: seq<Item>)
    requires EofKept(m, out) && m.queue.fifo != []
    ensures EofKept(Flushed(m), out + if Takes(m, m.queue.fifo[0]) then [m.queue.fifo[0]] else [])
  {
    assert Pending(m) == [m.queue.fifo[0]] + Pending(Flushed(m));
  }

  ghost predicate EofsKept(s: State) {
    forall i | 0 <= i < |s.streams| :: EofKept(s.streams[i], Out(s.log, i))
  }

  lemma EofStreamStep(s: State, i: nat, m: Stream, x: Item, taken: bool, direct: bool)
    requires EofsKept(s) && i < |s.streams| && EofKept(m, Out(s.log, i) + if taken then [x] else [])
    ensures EofsKept(Push(Set(s, i, m), i, x, taken, direct))
  {
    var t := Push(Set(s, i, m), i, x, taken, direct);
    forall k | 0 <= k < |t.streams| ensures EofKept(t.streams[k], Out(t.log, k)) {
      OutAppend(s.log, Entry(i, x, direct), k);
      assert Out(s.log, k) + [] == Out(s.log, k);
    }
  }

  lemma StepKeepsEof(s: State, a: Action)
    requires Inv(s) && EofsKept(s) && Enabled(s, a)
    ensures EofsKept(Apply(s, a))
  {
    match a
    case Call(i, x) =>
      CalledKeepsEof(s.streams[i], Out(s.log, i), s.starter, x);
    case Lock(i) =>
      LockedKeepsEof(s.streams[i], Out(s.log, i), s.starter);
    case Deliver(i) =>
      var m := s.streams[i];
      DeliveredKeepsEof(m, Out(s.log, i));
      EofStreamStep(s, i, Delivered(m), m.phase.item, Takes(m, m.phase.item), true);
    case Begin =>
    case Flush(i) =>
      var m := s.streams[i];
      FlushedKeepsEof(m, Out(s.log, i));
      EofStreamStep(s, i, Flushed(m), m.queue.fifo[0], Takes(m, m.queue.fifo[0]), false);
    case Finish =>
    case Close(i) =>
      assert Pending(s.streams[i].(recvFinished := true)) == Pending(s.streams[i]);
  }

  lemma {:induction false} RunKeepsEof(s: State, actions: seq<Action>, t: State)
    requires Inv(s) && EofsKept(s) && IsRun(s, actions, t)
    ensures EofsKept(t)
    decreases |actions|
  {
    if actions != [] {
      StepKeeps(s, actions[0]);
      StepKeepsEof(s, actions[0]);
      RunKeepsEof(Apply(s, actions[0]), actions[1..], t);
    }
  }

  /** Once the muxer runs and the sender is at rest, an end of file that was sent has
      arrived exactly when it was not the item that overflowed. */
  lemma EofArrives(s: State, actions: seq<Action>, t: State, i: nat)
    requires IsStart(s) && IsRun(s, actions, t) && i < |t.streams|
    requires t.starter == Started && t.streams[i].phase == Idle && Eof in t.streams[i].sent
    ensures Eof in Out(t.log, i) <==> !t.streams[i].lostEof
  {
    StartHolds(s);
    RunKeepsEof(s, actions, t);
    RunIsGood(s, actions, t, i);
  }

  // ---- A lost end of file ----

  const SMALL := Data(Packet(Timestamps.Unknown, 1, 0))

  function Copies(k: nat): seq<Item> {
    seq(k, _ => SMALL)
  }

  /** One stream that may buffer eight packets, all of one byte, k of them in its FIFO. */
  function Filled(k: nat): State {
    State([Stream(PreMuxQueue(Copies(k), 8, k, 8, 0), Idle, Open, false, false, false, Copies(k), false, false, false)],
          NotStarted, [])
  }

  /** The end of file has overflowed, and k of the eight packets were flushed. */
  function Draining(k: nat): State
    requires k <= 8
  {
    State([Stream(PreMuxQueue(Copies(8 - k), 8, 8, 8, 0), Idle, Ended, false, false, false,
                  Copies(8) + [Eof], true, true, false)],
          Flushing, seq(k, _ => Entry(0, SMALL, false)))
  }

  lemma {:induction false} RunAppend(s: State, actions: seq<Action>, t: State, a: Action)
    requires IsRun(s, actions, t) && Enabled(t, a)
    ensures IsRun(s, actions + [a], Apply(t, a))
    decreases |actions|
  {
    if actions == [] {
      assert [a][1..] == [];
    } else {
      RunAppend(Apply(s, actions[0]), actions[1..], t, a);
      assert (actions + [a])[1..] == actions[1..] + [a];
    }
  }

  lemma FillOne(k: nat)
    requires k < 8
    ensures Enabled(Filled(k), Call(0, SMALL)) && Enabled(Apply(Filled(k), Call(0, SMALL)), Lock(0))
    ensures Apply(Apply(Filled(k), Call(0, SMALL)), Lock(0)) == Filled(k + 1)
  {
    assert Copies(k) + [SMALL] == Copies(k + 1);
  }

  lemma {:induction false} FillRun(k: nat) returns (actions: seq<Action>)
    requires k <= 8
    ensures IsStart(Filled(0)) && IsRun(Filled(0), actions, Filled(k))
  {
    actions := [];
    if k > 0 {
      actions := FillRun(k - 1);
      FillOne(k - 1);
      RunAppend(Filled(0), actions, Filled(k - 1), Call(0, SMALL));
      RunAppend(Filled(0), actions + [Call(0, SMALL)], Apply(Filled(k - 1), Call(0, SMALL)), Lock(0));
      actions := actions + [Call(0, SMALL)] + [Lock(0)];
    }
  }

  function Calling(): State {
    Set(Filled(8), 0, Called(Filled(8).streams[0], Eof, false))
  }

  lemma LoseEof()
    ensures Enabled(Filled(8), Call(0, Eof)) && Apply(Filled(8), Call(0, Eof)) == Calling()
    ensures Enabled(Calling(), Lock(0)) && Enabled(Apply(Calling(), Lock(0)), Begin)
    ensures Apply(Apply(Calling(), Lock(0)), Begin) == Draining(0)
  {
    var empty: seq<Entry> := seq(0, _ => Entry(0, SMALL, false));
    assert empty == [];
  }

  lemma FlushOne(k: nat)
    requires k < 8
    ensures Enabled(Draining(k), Flush(0)) && Apply(Draining(k), Flush(0)) == Draining(k + 1)
  {
    var log: seq<Entry> := seq(k, _ => Entry(0, SMALL, false));
    assert log + [Entry(0, SMALL, false)] == Draining(k + 1).log;
    assert Copies(8 - k)[1..] == Copies(7 - k);
  }

  lemma {:induction false} FlushRun(k: nat, start: State, before: seq<Action>) returns (actions: seq<Action>)
    requires k <= 8 && IsRun(start, before, Draining(0))
    ensures IsRun(start, actions, Draining(k))
  {
    actions := before;
    if k > 0 {
      actions := FlushRun(k - 1, start, before);
      FlushOne(k - 1);
      RunAppend(start, actions, Draining(k - 1), Flush(0));
      actions := actions + [Flush(0)];
    }
  }

  lemma NoEofIn(log: seq<Entry>)
    requires forall k | 0 <= k < |log| :: log[k].item == SMALL
    ensures Eof !in Out(log, 0)
  {
  }

  /** It does happen: the end of file finds the FIFO full, and although the muxer then
      starts and takes all that was buffered, it never learns that the stream has ended. */
  lemma EofCanBeLost() returns (s: State, actions: seq<Action>, t: State)
    ensures IsStart(s) && IsRun(s, actions, t) && |t.streams| == 1
    ensures t.starter == Started && t.streams[0].phase == Idle && Eof in t.streams[0].sent
    ensures Eof !in Out(t.log, 0) && !t.streams[0].recvFinished && !t.streams[0].sendFinished
  {
    s := Filled(0);
    actions := FillRun(8);
    LoseEof();
    RunAppend(s, actions, Filled(8), Call(0, Eof));
    RunAppend(s, actions + [Call(0, Eof)], Calling(), Lock(0));
    RunAppend(s, actions + [Call(0, Eof)] + [Lock(0)], Apply(Calling(), Lock(0)), Begin);
    actions := FlushRun(8, s, actions + [Call(0, Eof)] + [Lock(0)] + [Begin]);
    RunAppend(s, actions, Draining(8), Finish);
    actions, t := actions + [Finish], Apply(Draining(8), Finish);
    NoEofIn(t.log);
  }
}
