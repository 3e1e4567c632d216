/** The packets buffered for a muxer that has not started, and their flush into its
    queue, in timestamp order, when it does. */
module PreMux {
  import opened Timestamps

  datatype Packet = Packet(dts: Timestamp, size: nat, payload: int)

  /** An element of a pre-muxing FIFO; the null packet stands for end of file. */
  datatype Item = Eof | Data(pkt: Packet)

  datatype Sent = Sent(stream: nat, pkt: Packet)

  datatype Status = OK | EOF | EINVAL

  predicate Timed(x: Item) {
    x.Data? && x.pkt.dts.At?
  }

  /** p does not come after q in time; packets without a timestamp have no place in time. */
  predicate NotAfter(p: Packet, q: Packet) {
    p.dts.At? && q.dts.At? ==> Time(p.dts) <= Time(q.dts)
  }

  predicate Sorted(s: seq<Packet>) {
    forall j, k | 0 <= j < k < |s| :: NotAfter(s[j], s[k])
  }

  predicate AllNotAfter(s: seq<Packet>, t: seq<Packet>) {
    forall j, k | 0 <= j < |s| && 0 <= k < |t| :: NotAfter(s[j], t[k])
  }

  /** The packets of a FIFO, without the end-of-file mark. */
  function Packets(f: seq<Item>): (s: seq<Packet>) {
    if f == [] then [] else (if f[0].Data? then [f[0].pkt] else []) + Packets(f[1..])
  }

  /** The packets of one stream in the order they were sent. */
  function Of(sent: seq<Sent>, stream: nat): (s: seq<Packet>) {
    if sent == [] then []
    else
      var front := Of(sent[..|sent| - 1], stream);
      var last := sent[|sent| - 1];
      if last.stream == stream then front + [last.pkt] else front
  }

  /** All the packets in the order they were sent. */
  function InOrder(sent: seq<Sent>): (s: seq<Packet>)
    ensures |s| == |sent|
    ensures forall k | 0 <= k < |s| :: s[k] == sent[k].pkt
  {
    seq(|sent|, k requires 0 <= k < |sent| => sent[k].pkt)
  }

  /** End of file is the last thing a sender puts in its FIFO. */
  predicate EofLast(f: seq<Item>) {
    forall k | 0 <= k < |f| - 1 :: f[k].Data?
  }

  function Total(fifos: seq<seq<Item>>): nat {
    if fifos == [] then 0 else |fifos[0]| + Total(fifos[1..])
  }

  lemma TotalUpdate(fifos: seq<seq<Item>>, i: nat, f: seq<Item>)
    requires i < |fifos|
    ensures Total(fifos[i := f]) == Total(fifos) - |fifos[i]| + |f|
  {
    if i == 0 {
      assert fifos[i := f][1..] == fifos[1..];
    } else {
      TotalUpdate(fifos[1..], i - 1, f);
      assert fifos[i := f][1..] == fifos[1..][i - 1 := f];
    }
  }

  lemma OfAppend(sent: seq<Sent>, x: Sent, stream: nat)
    ensures Of(sent + [x], stream) == if x.stream == stream then Of(sent, stream) + [x.pkt] else Of(sent, stream)
  {
    assert (sent + [x])[..|sent|] == sent;
  }

  lemma PacketsAt(f: seq<Item>, k: nat)
    requires k < |f| && f[k].Data?
    ensures f[k].pkt in Packets(f)
  {
    if k > 0 {
      PacketsAt(f[1..], k - 1);
    }
  }

  /** The queue of a muxer thread: what was put in it and which ends have closed. */
  class ThreadQueue {
    var sent: seq<Sent>
    var sendFinished: seq<bool>
    var recvFinished: seq<bool>

    constructor (n: nat)
      ensures Valid(n) && sent == [] && forall i | 0 <= i < n :: !sendFinished[i] && !recvFinished[i]
    {
      sent, sendFinished, recvFinished := [], seq(n, _ => false), seq(n, _ => false);
    }

    ghost predicate Valid(n: nat)
      reads this
    {
      |sendFinished| == |recvFinished| == n
    }

    /** Meanwhile the muxer thread may have closed some streams. */
    method Meanwhile(n: nat)
      requires Valid(n)
      modifies this`recvFinished
      ensures Valid(n) && forall i | 0 <= i < n :: old(recvFinished[i]) ==> recvFinished[i]
    {
      var more: seq<bool> :| |more| == n && forall i | 0 <= i < n :: recvFinished[i] ==> more[i];
      recvFinished := more;
    }

    /** tq_send: a packet is taken unless one of the ends of its stream is closed. */
    method Send(i: nat, p: Packet) returns (ret: Status)
      requires Valid(|sendFinished|) && i < |sendFinished|
      modifies this
      ensures Valid(|old(sendFinished)|)
      ensures ret == EINVAL <==> old(sendFinished[i])
      ensures ret == EOF ==> recvFinished[i]
      ensures ret == OK ==> !recvFinished[i]
      ensures forall k | 0 <= k < |recvFinished| :: old(recvFinished[k]) ==> recvFinished[k]
      ensures sent == if ret == OK then old(sent) + [Sent.Sent(i, p)] else old(sent)
      ensures sendFinished == if ret == EOF then old(sendFinished)[i := true] else old(sendFinished)
    {
      Meanwhile(|sendFinished|);
      if sendFinished[i] {
        return EINVAL;
      }
      if recvFinished[i] {
        sendFinished := sendFinished[i := true];
        return EOF;
      }
      sent := sent + [Sent.Sent(i, p)];
      return OK;
    }

    method SendFinish(i: nat)
      requires Valid(|sendFinished|) && i < |sendFinished|
      modifies this`sendFinished
      ensures sendFinished == old(sendFinished)[i := true]
    {
      sendFinished := sendFinished[i := true];
    }
  }

  /** How far the flush of one stream has come: was is its FIFO before, fifo what is
      left of it, out what reached the queue. */
  ghost predicate Flushing(was: seq<Item>, fifo: seq<Item>, out: seq<Packet>, initEof: bool, sendFinished: bool) {
    && EofLast(fifo)
    && (initEof ==> out <= Packets(was) && sendFinished)
    && (!initEof ==> out + Packets(fifo) == Packets(was))
    && (!initEof && sendFinished ==> fifo == [] && Eof in was)
    && (!sendFinished ==> (Eof in fifo <==> Eof in was))
  }

  /** Where a stream stands once its FIFO is empty. */
  ghost predicate Flushed(was: seq<Item>, out: seq<Packet>, initEof: bool, sendFinished: bool) {
    && (if initEof then out <= Packets(was) else out == Packets(was))
    && (sendFinished <==> initEof || Eof in was)
  }

  /** A packet moves from the FIFO to the queue. */
  lemma FlushSent(was: seq<Item>, fifo: seq<Item>, out: seq<Packet>)
    requires Flushing(was, fifo, out, false, false) && fifo != [] && fifo[0].Data?
    ensures Flushing(was, fifo[1..], out + [fifo[0].pkt], false, false)
  {
    var head, rest := [fifo[0].pkt], Packets(fifo[1..]);
    assert Packets(fifo) == head + rest;
    Regroup(out, head, rest);
    assert fifo == [fifo[0]] + fifo[1..];
  }

  lemma Regroup<T>(a: seq<T>, b: seq<T>, c: seq<T>)
    ensures a + (b + c) == a + b + c
  {
  }

  /** The muxer refuses a packet, or has refused an earlier one of the stream. */
  lemma FlushRefused(was: seq<Item>, fifo: seq<Item>, out: seq<Packet>, initEof: bool, sendFinished: bool)
    requires Flushing(was, fifo, out, initEof, sendFinished) && fifo != []
    ensures Flushing(was, fifo[1..], out, true, true)
  {
  }

  lemma FlushEof(was: seq<Item>, fifo: seq<Item>, out: seq<Packet>, initEof: bool, sendFinished: bool)
    requires Flushing(was, fifo, out, initEof, sendFinished) && fifo != [] && fifo[0] == Eof
    ensures Flushing(was, fifo[1..], out, initEof, true)
  {
    assert fifo[1..] == [];
    assert fifo[0] in fifo;
  }

  // ---- Order ----

  /** Nothing sent comes after anything still buffered, and both are in time order. */
  ghost predicate Ordered(out: seq<Packet>, fifos: seq<seq<Item>>) {
    && Sorted(out)
    && forall i | 0 <= i < |fifos| :: Sorted(Packets(fifos[i])) && AllNotAfter(out, Packets(fifos[i]))
  }

  /** The head of FIFO m may go first. */
  predicate MayGoFirst(fifos: seq<seq<Item>>, m: nat)
    requires m < |fifos| && fifos[m] != []
  {
    Timed(fifos[m][0]) ==>
      forall i | 0 <= i < |fifos| && fifos[i] != [] :: Timed(fifos[i][0]) && NotAfter(fifos[m][0].pkt, fifos[i][0].pkt)
  }

  lemma HeadNotAfter(p: Packet, f: seq<Item>)
    requires Sorted(Packets(f))
    requires p.dts.At? ==> f != [] ==> Timed(f[0]) && NotAfter(p, f[0].pkt)
    ensures AllNotAfter([p], Packets(f))
  {
    if p.dts.At? && f != [] {
      var s := Packets(f);
      assert s[0] == f[0].pkt;
      forall k | 0 <= k < |s| ensures NotAfter(p, s[k]) {
        assert k > 0 ==> NotAfter(s[0], s[k]);
      }
    }
  }

  lemma OrderedDrop(out: seq<Packet>, fifos: seq<seq<Item>>, m: nat)
    requires Ordered(out, fifos) && m < |fifos| && fifos[m] != []
    ensures Ordered(out, fifos[m := fifos[m][1..]])
  {
    var f := fifos[m];
    TailSorted(out, if f[0].Data? then [f[0].pkt] else [], Packets(f[1..]));
  }

  lemma TailSorted(out: seq<Packet>, head: seq<Packet>, tail: seq<Packet>)
    requires Sorted(head + tail) && AllNotAfter(out, head + tail)
    ensures Sorted(tail) && AllNotAfter(out, tail)
  {
    var s := head + tail;
    forall j, k | 0 <= j < k < |tail| ensures NotAfter(tail[j], tail[k]) {
      assert NotAfter(s[|head| + j], s[|head| + k]);
    }
    forall j, k | 0 <= j < |out| && 0 <= k < |tail| ensures NotAfter(out[j], tail[k]) {
      assert NotAfter(out[j], s[|head| + k]);
    }
  }

  lemma OrderedSend(out: seq<Packet>, fifos: seq<seq<Item>>, m: nat)
    requires Ordered(out, fifos) && m < |fifos| && fifos[m] != [] && fifos[m][0].Data?
    requires MayGoFirst(fifos, m)
    ensures Ordered(out + [fifos[m][0].pkt], fifos[m := fifos[m][1..]])
  {
    var p := fifos[m][0].pkt;
    assert Packets(fifos[m])[0] == p;
    forall i | 0 <= i < |fifos| ensures AllNotAfter([p], Packets(fifos[i])) {
      HeadNotAfter(p, fifos[i]);
    }
    OrderedJoin(out, p, fifos);
    OrderedDrop(out + [p], fifos, m);
  }

  lemma OrderedJoin(out: seq<Packet>, p: Packet, fifos: seq<seq<Item>>)
    requires Ordered(out, fifos)
    requires forall j | 0 <= j < |out| :: NotAfter(out[j], p)
    requires forall i | 0 <= i < |fifos| :: AllNotAfter([p], Packets(fifos[i]))
    ensures Ordered(out + [p], fifos)
  {
    forall i | 0 <= i < |fifos| ensures AllNotAfter(out + [p], Packets(fifos[i])) {
      JoinNotAfter(out, p, Packets(fifos[i]));
    }
  }

  lemma JoinNotAfter(out: seq<Packet>, p: Packet, s: seq<Packet>)
    requires AllNotAfter(out, s) && AllNotAfter([p], s)
    ensures AllNotAfter(out + [p], s)
  {
    forall k | 0 <= k < |s| ensures NotAfter(p, s[k]) {
      assert NotAfter([p][0], s[k]);
    }
  }

  // ---- The flush ----

  /** Among the first n FIFOs, m is the first whose head has no time or, if all heads
      have one, the first of those with the least. */
  ghost predicate IsEarliest(fifos: seq<seq<Item>>, n: nat, m: nat)
    requires n <= |fifos|
  {
    && m < n && fifos[m] != []
    && (forall i | 0 <= i < m && fifos[i] != [] ::
          Timed(fifos[i][0]) && (Timed(fifos[m][0]) ==> !NotAfter(fifos[i][0].pkt, fifos[m][0].pkt)))
    && (Timed(fifos[m][0]) ==>
          forall i | m < i < n && fifos[i] != [] :: Timed(fifos[i][0]) && NotAfter(fifos[m][0].pkt, fifos[i][0].pkt))
  }

  lemma EarliestMayGoFirst(fifos: seq<seq<Item>>, m: nat)
    requires IsEarliest(fifos, |fifos|, m)
    ensures MayGoFirst(fifos, m)
  {
    if Timed(fifos[m][0]) {
      forall i | 0 <= i < |fifos| && fifos[i] != []
        ensures Timed(fifos[i][0]) && NotAfter(fifos[m][0].pkt, fifos[i][0].pkt)
      {
        assert i < m || i == m || m < i;
      }
    }
  }

  lemma EarliestExtends(fifos: seq<seq<Item>>, n: nat, m: nat)
    requires n < |fifos| && IsEarliest(fifos, n, m) && Timed(fifos[m][0])
    requires fifos[n] != [] ==> Timed(fifos[n][0]) && NotAfter(fifos[m][0].pkt, fifos[n][0].pkt)
    ensures IsEarliest(fifos, n + 1, m)
  {
  }

  /** FIFO n comes before m, the earliest of those before it, if there is one. */
  lemma IsNewEarliest(fifos: seq<seq<Item>>, n: nat, m: int)
    requires n < |fifos| && fifos[n] != []
    requires m < 0 ==> forall i | 0 <= i < n :: fifos[i] == []
    requires m >= 0 ==> IsEarliest(fifos, n, m) && Timed(fifos[m][0])
    requires m >= 0 && Timed(fifos[n][0]) ==> !NotAfter(fifos[m][0].pkt, fifos[n][0].pkt)
    ensures IsEarliest(fifos, n + 1, n)
  {
    forall i | 0 <= i < n && fifos[i] != []
      ensures Timed(fifos[i][0]) && (Timed(fifos[n][0]) ==> !NotAfter(fifos[i][0].pkt, fifos[n][0].pkt))
    {
      assert i < m || i == m || m < i;
    }
  }

  lemma UntimedIsEarliest(fifos: seq<seq<Item>>, m: nat)
    requires m < |fifos| && IsEarliest(fifos, m + 1, m) && !Timed(fifos[m][0])
    ensures IsEarliest(fifos, |fifos|, m)
  {
  }

  /** The inner loop of mux_task_start. */
  method EarliestStream(fifos: seq<seq<Item>>) returns (r: int)
    ensures r < 0 ==> forall i | 0 <= i < |fifos| :: fifos[i] == []
    ensures r >= 0 ==> IsEarliest(fifos, |fifos|, r)
  {
    r := -1;
    var minTs := Unknown;
    for i := 0 to |fifos|
      invariant r < 0 ==> minTs == Unknown && forall k | 0 <= k < i :: fifos[k] == []
      invariant r >= 0 ==> IsEarliest(fifos, i, r) && Timed(fifos[r][0]) && minTs == fifos[r][0].pkt.dts
    {
      if fifos[i] == [] {
        if r >= 0 {
          EarliestExtends(fifos, i, r);
        }
        continue;
      }
      var head := fifos[i][0];
      if !Timed(head) {
        IsNewEarliest(fifos, i, r);
        UntimedIsEarliest(fifos, i);
        return i;
      }
      var dts := head.pkt.dts;
      if minTs == Unknown || CompareTs(minTs.ts, minTs.tb, dts.ts, dts.tb) > 0 {
        if r >= 0 {
          CompareTsIsTime(minTs.ts, minTs.tb, dts.ts, dts.tb);
        }
        IsNewEarliest(fifos, i, r);
        r, minTs := i, dts;
      } else {
        CompareTsIsTime(minTs.ts, minTs.tb, dts.ts, dts.tb);
        EarliestExtends(fifos, i, r);
      }
    }
  }

  /** One packet leaves FIFO m, and is either sent or refused. */
  lemma Sending(was: seq<seq<Item>>, fifos: seq<seq<Item>>, out: seq<Sent>, m: nat,
                refused: bool, sendFinished: bool, out': seq<Sent>)
    requires m < |fifos| == |was| && fifos[m] != [] && fifos[m][0].Data? && MayGoFirst(fifos, m)
    requires Flushing(was[m], fifos[m], Of(out, m), false, false)
    requires sendFinished == refused
    requires out' == if refused then out else out + [Sent.Sent(m, fifos[m][0].pkt)]
    ensures Flushing(was[m], fifos[m][1..], Of(out', m), refused, sendFinished)
    ensures forall i: nat | i != m :: Of(out', i) == Of(out, i)
    ensures Ordered(InOrder(out), fifos) ==> Ordered(InOrder(out'), fifos[m := fifos[m][1..]])
  {
    var x := Sent.Sent(m, fifos[m][0].pkt);
    if refused {
      FlushRefused(was[m], fifos[m], Of(out, m), false, false);
      if Ordered(InOrder(out), fifos) {
        OrderedDrop(InOrder(out), fifos, m);
      }
    } else {
      FlushSent(was[m], fifos[m], Of(out, m));
      forall i: nat ensures Of(out', i) == if i == m then Of(out, i) + [x.pkt] else Of(out, i) {
        OfAppend(out, x, i);
      }
      if Ordered(InOrder(out), fifos) {
        OrderedSend(InOrder(out), fifos, m);
        assert InOrder(out') == InOrder(out) + [x.pkt];
      }
    }
  }

  class SchMux {
    var fifos: seq<seq<Item>>
    var initEof: seq<bool>
    var muxStarted: bool
    const queue: ThreadQueue

    /** sch_add_mux and sch_add_mux_stream: n streams, nothing buffered. */
    constructor (n: nat)
      ensures Fresh() && !muxStarted && fifos == seq(n, _ => [])
      ensures fresh(queue)
    {
      fifos, initEof, muxStarted := seq(n, _ => []), seq(n, _ => false), false;
      queue := new ThreadQueue(n);
    }

    ghost predicate Valid()
      reads this, queue
    {
      |initEof| == |fifos| && queue.Valid(|fifos|)
    }

    /** The muxer thread has just been created: nothing was given to it yet. */
    ghost predicate Fresh()
      reads this, queue
    {
      && Valid() && queue.sent == []
      && forall i | 0 <= i < |fifos| :: !initEof[i] && !queue.sendFinished[i] && EofLast(fifos[i])
    }

    ghost predicate AllFlushing(was: seq<seq<Item>>)
      reads this, queue
    {
      && Valid() && |was| == |fifos|
      && forall i | 0 <= i < |fifos| ::
           Flushing(was[i], fifos[i], Of(queue.sent, i), initEof[i], queue.sendFinished[i])
    }

    /** mux_task_start once the task runs. Every FIFO is emptied into the queue; a stream
        loses packets only if the muxer closes it; the result is in time order if each
        FIFO is. */
    method MuxTaskStart() returns (ret: Status)
      requires Fresh()
      modifies this, queue
      ensures ret == OK && muxStarted && Valid() && |fifos| == |old(fifos)|
      ensures forall i | 0 <= i < |fifos| :: fifos[i] == []
      ensures forall i | 0 <= i < |fifos| ::
                Flushed(old(fifos)[i], Of(queue.sent, i), initEof[i], queue.sendFinished[i])
      ensures forall i | 0 <= i < |fifos| && initEof[i] :: queue.recvFinished[i]
      ensures (forall i | 0 <= i < |old(fifos)| :: Sorted(Packets(old(fifos)[i]))) ==> Sorted(InOrder(queue.sent))
    {
      ghost var was := fifos;
      ghost var sorted := forall i | 0 <= i < |was| :: Sorted(Packets(was[i]));
      assert AllFlushing(was);
      ret := FlushAll(was, sorted);
      muxStarted := true;
    }

    /** The loop of mux_task_start. */
    method FlushAll(ghost was: seq<seq<Item>>, ghost sorted: bool) returns (ret: Status)
      requires AllFlushing(was) && RefusalsAreClosed()
      requires sorted ==> Ordered(InOrder(queue.sent), fifos)
      modifies this, queue
      ensures ret == OK && AllFlushing(was) && RefusalsAreClosed()
      ensures sorted ==> Ordered(InOrder(queue.sent), fifos)
      ensures forall i | 0 <= i < |fifos| :: fifos[i] == []
    {
      while true
        invariant AllFlushing(was) && RefusalsAreClosed()
        invariant sorted ==> Ordered(InOrder(queue.sent), fifos)
        decreases Total(fifos)
      {
        var m := EarliestStream(fifos);
        if m < 0 {
          return OK;
        }
        EarliestMayGoFirst(fifos, m);
        ret := FlushHead(m, was);
        if ret != OK {
          return;
        }
      }
    }

    ghost predicate RefusalsAreClosed()
      reads this, queue
    {
      && Valid()
      && forall i | 0 <= i < |fifos| && initEof[i] :: queue.recvFinished[i]
    }

    method FlushHead(m: nat, ghost was: seq<seq<Item>>) returns (ret: Status)
      requires AllFlushing(was) && RefusalsAreClosed()
      requires m < |fifos| && fifos[m] != [] && MayGoFirst(fifos, m)
      modifies this, queue
      ensures ret == OK && AllFlushing(was) && RefusalsAreClosed()
      ensures |fifos| == old(|fifos|)
      ensures old(Ordered(InOrder(queue.sent), fifos)) ==> Ordered(InOrder(queue.sent), fifos)
      ensures Total(fifos) < old(Total(fifos))
    {
      TotalUpdate(fifos, m, fifos[m][1..]);
      if fifos[m][0] == Eof {
        FinishStream(m, was);
        ret := OK;
      } else if initEof[m] {
        DropHead(m, was);
        ret := OK;
      } else {
        ret := SendHead(m, was);
      }
    }

    method FinishStream(m: nat, ghost was: seq<seq<Item>>)
      requires AllFlushing(was) && RefusalsAreClosed()
      requires m < |fifos| && fifos[m] != [] && fifos[m][0] == Eof
      modifies this, queue
      ensures AllFlushing(was) && RefusalsAreClosed()
      ensures fifos == old(fifos[m := fifos[m][1..]])
      ensures old(Ordered(InOrder(queue.sent), fifos)) ==> Ordered(InOrder(queue.sent), fifos)
    {
      FlushEof(was[m], fifos[m], Of(queue.sent, m), initEof[m], queue.sendFinished[m]);
      if Ordered(InOrder(queue.sent), fifos) {
        OrderedDrop(InOrder(queue.sent), fifos, m);
      }
      fifos := fifos[m := fifos[m][1..]];
      queue.SendFinish(m);
    }

    method DropHead(m: nat, ghost was: seq<seq<Item>>)
      requires AllFlushing(was) && RefusalsAreClosed()
      requires m < |fifos| && fifos[m] != [] && initEof[m]
      modifies this
      ensures AllFlushing(was) && RefusalsAreClosed()
      ensures fifos == old(fifos[m := fifos[m][1..]])
      ensures old(Ordered(InOrder(queue.sent), fifos)) ==> Ordered(InOrder(queue.sent), fifos)
    {
      FlushRefused(was[m], fifos[m], Of(queue.sent, m), true, queue.sendFinished[m]);
      if Ordered(InOrder(queue.sent), fifos) {
        OrderedDrop(InOrder(queue.sent), fifos, m);
      }
      fifos := fifos[m := fifos[m][1..]];
    }

    method SendHead(m: nat, ghost was: seq<seq<Item>>) returns (ret: Status)
      requires AllFlushing(was) && RefusalsAreClosed()
      requires m < |fifos| && fifos[m] != [] && fifos[m][0].Data? && !initEof[m] && MayGoFirst(fifos, m)
      modifies this, queue
      ensures ret == OK && AllFlushing(was) && RefusalsAreClosed()
      ensures fifos == old(fifos[m := fifos[m][1..]])
      ensures old(Ordered(InOrder(queue.sent), fifos)) ==> Ordered(InOrder(queue.sent), fifos)
    {
      ghost var out, f := queue.sent, fifos;
      ret := PopAndSend(m);
      Sending(was, f, out, m, initEof[m], initEof[m], queue.sent);
    }

    method PopAndSend(m: nat) returns (ret: Status)
      requires RefusalsAreClosed()
      requires m < |fifos| && fifos[m] != [] && fifos[m][0].Data? && !initEof[m] && !queue.sendFinished[m]
      modifies this, queue
      ensures ret == OK && RefusalsAreClosed()
      ensures fifos == old(fifos[m := fifos[m][1..]])
      ensures initEof == old(initEof)[m := initEof[m]]
      ensures queue.sendFinished == old(queue.sendFinished)[m := initEof[m]]
      ensures queue.sent == if initEof[m] then old(queue.sent) else old(queue.sent + [Sent.Sent(m, fifos[m][0].pkt)])
    {
      var pkt := fifos[m][0].pkt;
      fifos := fifos[m := fifos[m][1..]];
      ret := queue.Send(m, pkt);
      if ret == EOF {
        initEof := initEof[m := true];
        ret := OK;
      }
    }
  }
}
