/** Which sources have to run so that a stream makes progress: the specification
    of the scheduler's marking pass. */
module Unchoking {
  import opened Topology
  import opened Digraph
  import opened Acyclic

  /** The tasks that can be held back: demuxers and filtergraphs. */
  datatype Waiter = OnDemux(idx: nat) | OnFilter(idx: nat)

  /** A graph that start_prepare accepts, and in which the walks up from muxed streams end. */
  ghost predicate Schedulable(g: Graph) {
    Ready(g) && IsAcyclic(FeedersOf(g)) && MuxesEnd(g)
  }

  /** best[f] is the input filtergraph `f` wants a frame on, or its number of inputs
      when it wants to run without one. */
  ghost predicate BestOk(g: Graph, best: seq<nat>) {
    |best| == |g.filters| && forall f | 0 <= f < |best| :: best[f] <= |g.filters[f].inputs|
  }

  // ---- Upstream: the task a stream waits for ----

  ghost function FilterRank(g: Graph, n: Node): nat
    requires Schedulable(g) && IsGrounded(g, n)
  {
    var o := Origin(g, n);
    if o.kind == FILTER_OUT then 1 + Rank(FeedersOf(g), o.idx) else 0
  }

  lemma CodecKeepsRank(g: Graph, n: Node)
    requires Schedulable(g) && IsGrounded(g, n) && IsCodec(n)
    ensures IsGrounded(g, Up(g, n)) && FilterRank(g, Up(g, n)) == FilterRank(g, n)
    ensures Depth(g, Up(g, n)) < Depth(g, n)
  {
    DepthUp(g, n);
  }

  lemma FilterLowersRank(g: Graph, n: Node, j: nat)
    requires Schedulable(g) && IsGrounded(g, n) && n.kind == FILTER_OUT
    requires j < |g.filters[n.idx].inputs|
    ensures IsGrounded(g, g.filters[n.idx].inputs[j])
    ensures FilterRank(g, g.filters[n.idx].inputs[j]) < FilterRank(g, n)
  {
    InputIsSource(g, n.idx, j);
    var t := FeedersOf(g);
    assert t[n.idx][j] == Feeder(g, n.idx, j);
    var o := Origin(g, g.filters[n.idx].inputs[j]);
    if o.kind == FILTER_OUT {
      assert Edge(t, n.idx, o.idx);
      RankDecreases(t, n.idx, o.idx);
    }
  }

  /** The demuxer, or the filtergraph that asked to be scheduled itself, which has to
      run for `src` to produce something. */
  ghost function Resolve(g: Graph, best: seq<nat>, src: Node): (w: Waiter)
    requires Schedulable(g) && BestOk(g, best) && IsGrounded(g, src)
    ensures w.OnDemux? ==> w.idx < |g.demux|
    ensures w.OnFilter? ==> w.idx < |g.filters| && best[w.idx] == |g.filters[w.idx].inputs|
    decreases FilterRank(g, src), Depth(g, src)
  {
    if src.kind == DEMUX then OnDemux(src.idx)
    else if IsCodec(src) then
      CodecKeepsRank(g, src);
      Resolve(g, best, Up(g, src))
    else if best[src.idx] == |g.filters[src.idx].inputs| then OnFilter(src.idx)
    else
      FilterLowersRank(g, src, best[src.idx]);
      Resolve(g, best, g.filters[src.idx].inputs[best[src.idx]])
  }

  // ---- The same by a walk ----

  /** A codec waits for what feeds it, a filtergraph for its wanted input. */
  predicate IsStep(g: Graph, best: seq<nat>, n: Node, m: Node)
    requires BestOk(g, best) && IsSource(g, n)
  {
    match n.kind
    case DEC => m == g.dec[n.idx].src
    case ENC => m == g.enc[n.idx].src
    case FILTER_OUT => best[n.idx] < |g.filters[n.idx].inputs| && m == g.filters[n.idx].inputs[best[n.idx]]
    case _ => false
  }

  /** There is nothing further to wait for than task w, which `n` is an output of. */
  predicate IsOutputOf(g: Graph, best: seq<nat>, n: Node, w: Waiter)
    requires BestOk(g, best) && IsSource(g, n)
  {
    || (n.kind == DEMUX && w == OnDemux(n.idx))
    || (n.kind == FILTER_OUT && best[n.idx] == |g.filters[n.idx].inputs| && w == OnFilter(n.idx))
  }

  ghost predicate IsWalkUp(g: Graph, best: seq<nat>, p: seq<Node>)
    requires BestOk(g, best)
  {
    && (forall k | 0 <= k < |p| :: IsSource(g, p[k]))
    && (forall k | 0 <= k < |p| - 1 :: IsStep(g, best, p[k], p[k + 1]))
  }

  /** Step by step, `src` waits for task w. */
  ghost predicate WaitsFor(g: Graph, best: seq<nat>, src: Node, w: Waiter)
    requires BestOk(g, best)
  {
    exists p: seq<Node> | p != [] && p[0] == src && IsWalkUp(g, best, p) :: IsOutputOf(g, best, p[|p| - 1], w)
  }

  lemma WaitsOn(g: Graph, best: seq<nat>, src: Node, m: Node, w: Waiter)
    requires BestOk(g, best) && IsSource(g, src) && IsStep(g, best, src, m) && WaitsFor(g, best, m, w)
    ensures WaitsFor(g, best, src, w)
  {
    var p: seq<Node> :| p != [] && p[0] == m && IsWalkUp(g, best, p) && IsOutputOf(g, best, p[|p| - 1], w);
    var q := [src] + p;
    assert forall k | 0 < k < |q| :: q[k] == p[k - 1];
    forall k | 0 <= k < |q| - 1 ensures IsStep(g, best, q[k], q[k + 1]) {
      assert k > 0 ==> q[k] == p[k - 1];
    }
  }

  lemma {:induction false} ResolveIsWaitedFor(g: Graph, best: seq<nat>, src: Node)
    requires Schedulable(g) && BestOk(g, best) && IsGrounded(g, src)
    ensures WaitsFor(g, best, src, Resolve(g, best, src))
    decreases FilterRank(g, src), Depth(g, src)
  {
    if IsCodec(src) {
      CodecKeepsRank(g, src);
      ResolveIsWaitedFor(g, best, Up(g, src));
      WaitsOn(g, best, src, Up(g, src), Resolve(g, best, src));
    } else if src.kind == FILTER_OUT && best[src.idx] < |g.filters[src.idx].inputs| {
      FilterLowersRank(g, src, best[src.idx]);
      ResolveIsWaitedFor(g, best, g.filters[src.idx].inputs[best[src.idx]]);
      WaitsOn(g, best, src, g.filters[src.idx].inputs[best[src.idx]], Resolve(g, best, src));
    } else {
      assert IsWalkUp(g, best, [src]) && IsOutputOf(g, best, [src][0], Resolve(g, best, src));
    }
  }

  lemma StepKeepsResolve(g: Graph, best: seq<nat>, n: Node, m: Node)
    requires Schedulable(g) && BestOk(g, best) && IsGrounded(g, n) && IsStep(g, best, n, m)
    ensures IsGrounded(g, m) && Resolve(g, best, n) == Resolve(g, best, m)
  {
    if IsCodec(n) {
      CodecKeepsRank(g, n);
    } else {
      FilterLowersRank(g, n, best[n.idx]);
    }
  }

  lemma WalkTail(g: Graph, best: seq<nat>, p: seq<Node>)
    requires BestOk(g, best) && |p| > 1 && IsWalkUp(g, best, p)
    ensures IsStep(g, best, p[0], p[1]) && IsWalkUp(g, best, p[1..]) && p[1..][|p| - 2] == p[|p| - 1]
  {
  }

  lemma {:induction false} WalkLeadsToResolve(g: Graph, best: seq<nat>, p: seq<Node>, w: Waiter)
    requires Schedulable(g) && BestOk(g, best) && p != [] && IsGrounded(g, p[0])
    requires IsWalkUp(g, best, p) && IsOutputOf(g, best, p[|p| - 1], w)
    ensures w == Resolve(g, best, p[0])
    decreases |p|
  {
    if |p| > 1 {
      hide IsStep, IsOutputOf, IsWalkUp;
      WalkTail(g, best, p);
      StepKeepsResolve(g, best, p[0], p[1]);
      WalkLeadsToResolve(g, best, p[1..], w);
    }
  }

  /** There is exactly one task that a source waits for. */
  lemma WaitsForOne(g: Graph, best: seq<nat>, src: Node, w: Waiter)
    requires Schedulable(g) && BestOk(g, best) && IsGrounded(g, src)
    ensures WaitsFor(g, best, src, w) <==> w == Resolve(g, best, src)
  {
    ResolveIsWaitedFor(g, best, src);
    if WaitsFor(g, best, src, w) {
      var p: seq<Node> :| p != [] && p[0] == src && IsWalkUp(g, best, p) && IsOutputOf(g, best, p[|p| - 1], w);
      WalkLeadsToResolve(g, best, p, w);
    }
  }

  // ---- Downstream: the tasks that must run when a demuxer does ----

  /** A sink whose source is grounded. */
  ghost predicate IsFed(g: Graph, dst: Node)
    requires Wired(g)
  {
    IsSink(g, dst) && IsGrounded(g, SourceOf(g, dst))
  }

  ghost predicate DecIsFed(g: Graph, i: nat)
    requires Wired(g)
  {
    i < |g.dec| && IsFed(g, Node(DEC, i, 0))
  }

  ghost predicate EncIsFed(g: Graph, i: nat)
    requires Wired(g)
  {
    i < |g.enc| && IsFed(g, Node(ENC, i, 0))
  }

  /** Codecs that may still follow below a sink. */
  ghost function Below(g: Graph, dst: Node): nat
    requires Wired(g) && IsFed(g, dst)
  {
    NbCodecs(g) + 1 - Depth(g, SourceOf(g, dst))
  }

  ghost function BelowDec(g: Graph, i: nat): nat
    requires Wired(g) && DecIsFed(g, i)
  {
    Below(g, Node(DEC, i, 0))
  }

  ghost function BelowEnc(g: Graph, i: nat): nat
    requires Wired(g) && EncIsFed(g, i)
  {
    Below(g, Node(ENC, i, 0))
  }

  lemma SinkHasSource(g: Graph, dst: Node)
    requires Wired(g) && IsSink(g, dst)
    ensures IsSource(g, SourceOf(g, dst)) && MayFeed(SourceOf(g, dst).kind, dst.kind)
  {
    assert SinkLinked(g, dst) && SinkJoined(g, dst);
  }

  lemma SourceHasSink(g: Graph, src: Node, k: nat)
    requires Wired(g) && IsSource(g, src) && k < |SinksOf(g, src)|
    ensures IsSink(g, SinksOf(g, src)[k]) && SourceOf(g, SinksOf(g, src)[k]) == src
    ensures MayFeed(src.kind, SinksOf(g, src)[k].kind)
  {
    assert SourceLinked(g, src);
    SinkHasSource(g, SinksOf(g, src)[k]);
  }

  function FirstSink(g: Graph, i: nat, k: nat): Node
    requires i < |g.dec| && k < |g.dec[i].outputs| && |g.dec[i].outputs[k]| > 0
  {
    g.dec[i].outputs[k][0]
  }

  lemma OutputIsBelow(g: Graph, i: nat, k: nat)
    requires Wired(g) && DecIsFed(g, i) && k < |g.dec[i].outputs|
    ensures IsSource(g, Node(DEC, i, k)) && |g.dec[i].outputs[k]| > 0
    ensures IsFed(g, FirstSink(g, i, k)) && MayFeed(DEC, FirstSink(g, i, k).kind)
    ensures Below(g, FirstSink(g, i, k)) < BelowDec(g, i)
  {
    var n := Node(DEC, i, k);
    assert SourceJoined(g, n);
    SourceHasSink(g, n, 0);
    EndsBelow(g, n);
    DepthUp(g, n);
  }

  lemma PacketIsBelow(g: Graph, i: nat, k: nat)
    requires Wired(g) && EncIsFed(g, i) && k < |g.enc[i].dst|
    ensures IsSource(g, Node(ENC, i, 0))
    ensures IsFed(g, g.enc[i].dst[k]) && MayFeed(ENC, g.enc[i].dst[k].kind)
    ensures Below(g, g.enc[i].dst[k]) < BelowEnc(g, i)
  {
    var n := Node(ENC, i, 0);
    SourceHasSink(g, n, k);
    EndsBelow(g, n);
    DepthUp(g, n);
  }

  lemma StreamHasSink(g: Graph, d: nat, j: nat)
    requires Wired(g) && d < |g.demux| && j < |g.demux[d]|
    ensures |g.demux[d][j]| > 0 && IsFed(g, g.demux[d][j][0]) && MayFeed(DEMUX, g.demux[d][j][0].kind)
  {
    var n := Node(DEMUX, d, j);
    assert SourceJoined(g, n);
    SourceHasSink(g, n, 0);
  }

  /** The tasks to be woken so that data arriving at `dst` is not stuck. Of the sinks
      of a decoder output only the first is followed, of an encoder all are. */
  ghost function Wakes(g: Graph, best: seq<nat>, dst: Node): set<Waiter>
    requires Schedulable(g) && BestOk(g, best) && IsFed(g, dst)
    decreases Below(g, dst), 1, 0
  {
    match dst.kind
    case DEC => OutputsWake(g, best, dst.idx, |g.dec[dst.idx].outputs|)
    case ENC => PacketsWake(g, best, dst.idx, |g.enc[dst.idx].dst|)
    case FILTER_IN =>
      if best[dst.idx] == |g.filters[dst.idx].inputs| then {OnFilter(dst.idx)}
      else
        InputIsSource(g, dst.idx, best[dst.idx]);
        {Resolve(g, best, g.filters[dst.idx].inputs[best[dst.idx]])}
    case _ => {}
  }

  ghost function OutputsWake(g: Graph, best: seq<nat>, i: nat, k: nat): set<Waiter>
    requires Schedulable(g) && BestOk(g, best) && DecIsFed(g, i) && k <= |g.dec[i].outputs|
    decreases BelowDec(g, i), 0, k
  {
    if k == 0 then {}
    else
      OutputIsBelow(g, i, k - 1);
      Wakes(g, best, FirstSink(g, i, k - 1)) + OutputsWake(g, best, i, k - 1)
  }

  ghost function PacketsWake(g: Graph, best: seq<nat>, i: nat, k: nat): set<Waiter>
    requires Schedulable(g) && BestOk(g, best) && EncIsFed(g, i) && k <= |g.enc[i].dst|
    decreases BelowEnc(g, i), 0, k
  {
    if k == 0 then {}
    else
      PacketIsBelow(g, i, k - 1);
      PacketsWake(g, best, i, k - 1) + Wakes(g, best, g.enc[i].dst[k - 1])
  }

  /** The tasks woken by the first `k` streams of demuxer `d`, each by its first sink. */
  ghost function StreamsWake(g: Graph, best: seq<nat>, d: nat, k: nat): set<Waiter>
    requires Schedulable(g) && BestOk(g, best) && d < |g.demux| && k <= |g.demux[d]|
  {
    if k == 0 then {}
    else
      StreamHasSink(g, d, k - 1);
      StreamsWake(g, best, d, k - 1) + Wakes(g, best, g.demux[d][k - 1][0])
  }

  ghost function DemuxWakes(g: Graph, best: seq<nat>, d: nat): set<Waiter>
    requires Schedulable(g) && BestOk(g, best) && d < |g.demux|
  {
    StreamsWake(g, best, d, |g.demux[d]|)
  }

  // ---- Tasks without a thread ----

  /** sch_start makes no thread for a demuxer without streams. */
  predicate HasThread(g: Graph, w: Waiter) {
    match w
    case OnDemux(d) => d < |g.demux| && g.demux[d] != []
    case OnFilter(f) => f < |g.filters|
  }

  lemma {:induction false} AwaitedHasThread(g: Graph, best: seq<nat>, src: Node)
    requires Schedulable(g) && BestOk(g, best) && IsGrounded(g, src)
    ensures HasThread(g, Resolve(g, best, src))
    decreases FilterRank(g, src), Depth(g, src)
  {
    if IsCodec(src) {
      CodecKeepsRank(g, src);
      AwaitedHasThread(g, best, Up(g, src));
    } else if src.kind == FILTER_OUT && best[src.idx] < |g.filters[src.idx].inputs| {
      FilterLowersRank(g, src, best[src.idx]);
      AwaitedHasThread(g, best, g.filters[src.idx].inputs[best[src.idx]]);
    }
  }

  predicate AllHaveThreads(g: Graph, s: set<Waiter>) {
    forall w | w in s :: HasThread(g, w)
  }

  lemma {:induction false} WokenHaveThreads(g: Graph, best: seq<nat>, dst: Node)
    requires Schedulable(g) && BestOk(g, best) && IsFed(g, dst)
    ensures AllHaveThreads(g, Wakes(g, best, dst))
    decreases Below(g, dst), 1, 0
  {
    if dst.kind == DEC {
      WokenByOutputsHaveThreads(g, best, dst.idx, |g.dec[dst.idx].outputs|);
    } else if dst.kind == ENC {
      WokenByPacketsHaveThreads(g, best, dst.idx, |g.enc[dst.idx].dst|);
    } else if dst.kind == FILTER_IN && best[dst.idx] < |g.filters[dst.idx].inputs| {
      InputIsSource(g, dst.idx, best[dst.idx]);
      AwaitedHasThread(g, best, g.filters[dst.idx].inputs[best[dst.idx]]);
    }
  }

  lemma {:induction false} WokenByOutputsHaveThreads(g: Graph, best: seq<nat>, i: nat, k: nat)
    requires Schedulable(g) && BestOk(g, best) && DecIsFed(g, i) && k <= |g.dec[i].outputs|
    ensures AllHaveThreads(g, OutputsWake(g, best, i, k))
    decreases BelowDec(g, i), 0, k
  {
    if k > 0 {
      OutputIsBelow(g, i, k - 1);
      WokenHaveThreads(g, best, FirstSink(g, i, k - 1));
      WokenByOutputsHaveThreads(g, best, i, k - 1);
    }
  }

  lemma {:induction false} WokenByPacketsHaveThreads(g: Graph, best: seq<nat>, i: nat, k: nat)
    requires Schedulable(g) && BestOk(g, best) && EncIsFed(g, i) && k <= |g.enc[i].dst|
    ensures AllHaveThreads(g, PacketsWake(g, best, i, k))
    decreases BelowEnc(g, i), 0, k
  {
    if k > 0 {
      PacketIsBelow(g, i, k - 1);
      WokenHaveThreads(g, best, g.enc[i].dst[k - 1]);
      WokenByPacketsHaveThreads(g, best, i, k - 1);
    }
  }

  lemma {:induction false} WokenByStreamsHaveThreads(g: Graph, best: seq<nat>, d: nat, k: nat)
    requires Schedulable(g) && BestOk(g, best) && d < |g.demux| && k <= |g.demux[d]|
    ensures AllHaveThreads(g, StreamsWake(g, best, d, k))
  {
    if k > 0 {
      StreamHasSink(g, d, k - 1);
      WokenHaveThreads(g, best, g.demux[d][k - 1][0]);
      WokenByStreamsHaveThreads(g, best, d, k - 1);
    }
  }

  // ---- Closed sets ----

  /** A running demuxer comes with all the tasks it wakes. */
  ghost predicate IsClosed(g: Graph, best: seq<nat>, s: set<Waiter>)
    requires Schedulable(g) && BestOk(g, best)
  {
    forall d | 0 <= d < |g.demux| && OnDemux(d) in s :: DemuxWakes(g, best, d) <= s
  }

  /** `s` is the least closed set containing `seeds`. */
  ghost predicate IsClosure(g: Graph, best: seq<nat>, seeds: set<Waiter>, s: set<Waiter>)
    requires Schedulable(g) && BestOk(g, best)
  {
    && seeds <= s && IsClosed(g, best, s)
    && forall u: set<Waiter> {:trigger IsClosed(g, best, u)} | seeds <= u && IsClosed(g, best, u) :: s <= u
  }

  lemma ClosureIsUnique(g: Graph, best: seq<nat>, seeds: set<Waiter>, s: set<Waiter>, s': set<Waiter>)
    requires Schedulable(g) && BestOk(g, best)
    requires IsClosure(g, best, seeds, s) && IsClosure(g, best, seeds, s')
    ensures s == s'
  {
    assert s <= s' && s' <= s;
  }

  /** What marking from `seeds` may do to a set of running tasks: it adds the seeds
      and whatever the demuxers it adds wake, and nothing else. */
  ghost predicate Marked(g: Graph, best: seq<nat>, before: set<Waiter>, after: set<Waiter>, seeds: set<Waiter>)
    requires Schedulable(g) && BestOk(g, best)
  {
    && before <= after && seeds <= after
    && (forall d | 0 <= d < |g.demux| && OnDemux(d) in after && OnDemux(d) !in before ::
          DemuxWakes(g, best, d) <= after)
    && (forall u: set<Waiter> {:trigger IsClosed(g, best, u)} | seeds <= u && IsClosed(g, best, u) ::
          after <= before + u)
  }

  lemma MarkNothing(g: Graph, best: seq<nat>, s: set<Waiter>)
    requires Schedulable(g) && BestOk(g, best)
    ensures Marked(g, best, s, s, {})
  {
  }

  lemma MarkPresent(g: Graph, best: seq<nat>, s: set<Waiter>, w: Waiter)
    requires Schedulable(g) && BestOk(g, best) && w in s
    ensures Marked(g, best, s, s, {w})
  {
  }

  lemma MarkFilter(g: Graph, best: seq<nat>, s: set<Waiter>, f: nat)
    requires Schedulable(g) && BestOk(g, best)
    ensures Marked(g, best, s, s + {OnFilter(f)}, {OnFilter(f)})
  {
  }

  lemma MarkThenMark(g: Graph, best: seq<nat>, a: set<Waiter>, b: set<Waiter>, c: set<Waiter>,
                     s: set<Waiter>, s': set<Waiter>)
    requires Schedulable(g) && BestOk(g, best)
    requires Marked(g, best, a, b, s) && Marked(g, best, b, c, s')
    ensures Marked(g, best, a, c, s + s')
  {
  }

  lemma MarkDemux(g: Graph, best: seq<nat>, before: set<Waiter>, after: set<Waiter>, d: nat)
    requires Schedulable(g) && BestOk(g, best) && d < |g.demux|
    requires Marked(g, best, before + {OnDemux(d)}, after, DemuxWakes(g, best, d))
    ensures Marked(g, best, before, after, {OnDemux(d)})
  {
  }

  /** Marking from nothing reaches the least closed set of the seeds. */
  lemma MarkedIsClosure(g: Graph, best: seq<nat>, after: set<Waiter>, seeds: set<Waiter>)
    requires Schedulable(g) && BestOk(g, best) && Marked(g, best, {}, after, seeds)
    ensures IsClosure(g, best, seeds, after)
  {
    forall u: set<Waiter> | seeds <= u && IsClosed(g, best, u) ensures after <= u {
      assert after <= {} + u;
    }
  }

  /** Seeds that have threads bring only tasks that have. */
  lemma ClosureHasThreads(g: Graph, best: seq<nat>, seeds: set<Waiter>, s: set<Waiter>)
    requires Schedulable(g) && BestOk(g, best) && IsClosure(g, best, seeds, s) && AllHaveThreads(g, seeds)
    ensures AllHaveThreads(g, s)
  {
    var u := set w | w in s && HasThread(g, w);
    forall d | 0 <= d < |g.demux| && OnDemux(d) in u ensures DemuxWakes(g, best, d) <= u {
      WokenByStreamsHaveThreads(g, best, d, |g.demux[d]|);
    }
    assert IsClosed(g, best, u);
  }
}
