/** What an update leaves running, told without the marking: by numbers for the streams that
    want data, and by walks in the graph for the tasks that have to run for them. */
module Needed {
  import opened Topology
  import opened Options
  import opened Acyclic
  import opened Unchoking
  import opened Demand

  // ---- Which streams want data ----

  /** An unfinished stream without a dts wants data; one with a dts wants some when all
      unfinished streams have one, none of them 100000 or more before it. When all are
      INT64_MAX there is no telling who trails, and none does. */
  predicate Wants(mux: seq<seq<MuxStream>>, i: nat, j: nat)
    requires i < |mux| && j < |mux[i]|
  {
    && !mux[i][j].sourceFinished
    && (mux[i][j].lastDts.Some? ==>
          && (forall a, b | 0 <= a < |mux| && 0 <= b < |mux[a]| && !mux[a][b].sourceFinished ::
                mux[a][b].lastDts.Some? && mux[i][j].lastDts.value - mux[a][b].lastDts.value < 100000)
          && (exists a, b | 0 <= a < |mux| && 0 <= b < |mux[a]| && !mux[a][b].sourceFinished ::
                mux[a][b].lastDts.Some? && mux[a][b].lastDts.value < 0x7fff_ffff_ffff_ffff))
  }

  lemma NoTrailing(mux: seq<seq<MuxStream>>, i: nat, j: nat)
    requires IsTrailing(mux, false, None) && i < |mux| && j < |mux[i]|
    ensures Eligible(mux[i][j], None) <==> Wants(mux, i, j)
  {
  }

  lemma Trailing(mux: seq<seq<MuxStream>>, dts: int, i: nat, j: nat)
    requires IsTrailing(mux, false, Some(dts)) && i < |mux| && j < |mux[i]|
    ensures Eligible(mux[i][j], Some(dts)) <==> Wants(mux, i, j)
  {
    assert forall c, d | 0 <= c < |mux| && 0 <= d < |mux[c]| && Counts(mux[c][d], false) :: mux[c][d].lastDts.Some?;
    var a, b :| 0 <= a < |mux| && 0 <= b < |mux[a]| && Counts(mux[a][b], false) && mux[a][b].lastDts == Some(dts);
    var c, d :| 0 <= c < |mux| && 0 <= d < |mux[c]| && Counts(mux[c][d], false)
      && mux[c][d].lastDts.value < 0x7fff_ffff_ffff_ffff;
    assert !mux[c][d].sourceFinished && mux[c][d].lastDts.Some?;
  }

  /** The streams within the tolerance of the trailing one are those that want data. */
  lemma EligibleIsWanting(mux: seq<seq<MuxStream>>, dts: Option<int>, i: nat, j: nat)
    requires IsTrailing(mux, false, dts) && i < |mux| && j < |mux[i]|
    ensures Eligible(mux[i][j], dts) <==> Wants(mux, i, j)
  {
    if dts.Some? {
      Trailing(mux, dts.value, i, j);
    } else {
      NoTrailing(mux, i, j);
    }
  }

  // ---- What data arriving at a sink needs ----

  /** From a decoder to the first sink of one of its outputs, from an encoder to any sink. */
  predicate GoesTo(g: Graph, n: Node, m: Node)
    requires IsSink(g, n)
  {
    match n.kind
    case DEC => exists k | 0 <= k < |g.dec[n.idx].outputs| && g.dec[n.idx].outputs[k] != [] ::
                  g.dec[n.idx].outputs[k][0] == m
    case ENC => m in g.enc[n.idx].dst
    case _ => false
  }

  ghost predicate IsWalkDown(g: Graph, p: seq<Node>) {
    && (forall k | 0 <= k < |p| :: IsSink(g, p[k]))
    && (forall k | 0 <= k < |p| - 1 :: GoesTo(g, p[k], p[k + 1]))
  }

  /** A filtergraph that data arrives at needs to run itself if it wants no input, and
      otherwise what its wanted input waits for. */
  ghost predicate NeedsTask(g: Graph, best: seq<nat>, n: Node, w: Waiter)
    requires BestOk(g, best) && IsSink(g, n)
  {
    n.kind == FILTER_IN &&
    if best[n.idx] == |g.filters[n.idx].inputs| then w == OnFilter(n.idx)
    else WaitsFor(g, best, g.filters[n.idx].inputs[best[n.idx]], w)
  }

  /** Data that arrives at `dst` comes to a filtergraph that needs task w. */
  ghost predicate Wakens(g: Graph, best: seq<nat>, dst: Node, w: Waiter)
    requires BestOk(g, best)
  {
    exists p: seq<Node> | p != [] && p[0] == dst && IsWalkDown(g, p) :: NeedsTask(g, best, p[|p| - 1], w)
  }

  lemma WalkDownFrom(g: Graph, n: Node, p: seq<Node>)
    requires p != [] && IsWalkDown(g, p) && IsSink(g, n) && GoesTo(g, n, p[0])
    ensures IsWalkDown(g, [n] + p) && ([n] + p)[|p|] == p[|p| - 1]
  {
    var q := [n] + p;
    assert forall k | 0 < k < |q| :: q[k] == p[k - 1];
    forall k | 0 <= k < |q| - 1 ensures GoesTo(g, q[k], q[k + 1]) {
      assert k > 0 ==> q[k] == p[k - 1];
    }
  }

  lemma WakensOn(g: Graph, best: seq<nat>, n: Node, m: Node, w: Waiter)
    requires BestOk(g, best) && IsSink(g, n) && GoesTo(g, n, m) && Wakens(g, best, m, w)
    ensures Wakens(g, best, n, w)
  {
    hide GoesTo, NeedsTask;
    var p: seq<Node> :| p != [] && p[0] == m && IsWalkDown(g, p) && NeedsTask(g, best, p[|p| - 1], w);
    WalkDownFrom(g, n, p);
    assert ([n] + p)[0] == n;
  }

  /** The k-th output of decoder i, by its first sink. */
  ghost predicate OutputWakes(g: Graph, best: seq<nat>, i: nat, k: nat, w: Waiter)
    requires Schedulable(g) && BestOk(g, best) && DecIsFed(g, i) && k < |g.dec[i].outputs|
  {
    OutputIsBelow(g, i, k);
    w in Wakes(g, best, FirstSink(g, i, k))
  }

  ghost predicate PacketWakes(g: Graph, best: seq<nat>, i: nat, k: nat, w: Waiter)
    requires Schedulable(g) && BestOk(g, best) && EncIsFed(g, i) && k < |g.enc[i].dst|
  {
    PacketIsBelow(g, i, k);
    w in Wakes(g, best, g.enc[i].dst[k])
  }

  ghost predicate StreamWakes(g: Graph, best: seq<nat>, d: nat, k: nat, w: Waiter)
    requires Schedulable(g) && BestOk(g, best) && d < |g.demux| && k < |g.demux[d]|
  {
    StreamHasSink(g, d, k);
    w in Wakes(g, best, g.demux[d][k][0])
  }

  lemma OneOutputMore(g: Graph, best: seq<nat>, i: nat, n: nat, w: Waiter)
    requires Schedulable(g) && BestOk(g, best) && DecIsFed(g, i) && n <= |g.dec[i].outputs|
    ensures w in OutputsWake(g, best, i, n) <==>
            n > 0 && (w in OutputsWake(g, best, i, n - 1) || OutputWakes(g, best, i, n - 1, w))
  {
  }

  lemma {:induction false} OutputsWakeAre(g: Graph, best: seq<nat>, i: nat, n: nat, w: Waiter)
    requires Schedulable(g) && BestOk(g, best) && DecIsFed(g, i) && n <= |g.dec[i].outputs|
    ensures w in OutputsWake(g, best, i, n) <==> exists k | 0 <= k < n :: OutputWakes(g, best, i, k, w)
    decreases n
  {
    hide OutputsWake, OutputWakes, Schedulable;
    OneOutputMore(g, best, i, n, w);
    if n > 0 {
      OutputsWakeAre(g, best, i, n - 1, w);
    }
  }

  lemma OnePacketMore(g: Graph, best: seq<nat>, i: nat, n: nat, w: Waiter)
    requires Schedulable(g) && BestOk(g, best) && EncIsFed(g, i) && n <= |g.enc[i].dst|
    ensures w in PacketsWake(g, best, i, n) <==>
            n > 0 && (w in PacketsWake(g, best, i, n - 1) || PacketWakes(g, best, i, n - 1, w))
  {
  }

  lemma {:induction false} PacketsWakeAre(g: Graph, best: seq<nat>, i: nat, n: nat, w: Waiter)
    requires Schedulable(g) && BestOk(g, best) && EncIsFed(g, i) && n <= |g.enc[i].dst|
    ensures w in PacketsWake(g, best, i, n) <==> exists k | 0 <= k < n :: PacketWakes(g, best, i, k, w)
    decreases n
  {
    hide PacketsWake, PacketWakes, Schedulable;
    OnePacketMore(g, best, i, n, w);
    if n > 0 {
      PacketsWakeAre(g, best, i, n - 1, w);
    }
  }

  lemma OneStreamMore(g: Graph, best: seq<nat>, d: nat, n: nat, w: Waiter)
    requires Schedulable(g) && BestOk(g, best) && d < |g.demux| && n <= |g.demux[d]|
    ensures w in StreamsWake(g, best, d, n) <==>
            n > 0 && (w in StreamsWake(g, best, d, n - 1) || StreamWakes(g, best, d, n - 1, w))
  {
  }

  lemma {:induction false} StreamsWakeAre(g: Graph, best: seq<nat>, d: nat, n: nat, w: Waiter)
    requires Schedulable(g) && BestOk(g, best) && d < |g.demux| && n <= |g.demux[d]|
    ensures w in StreamsWake(g, best, d, n) <==> exists k | 0 <= k < n :: StreamWakes(g, best, d, k, w)
    decreases n
  {
    hide StreamsWake, StreamWakes, Schedulable;
    OneStreamMore(g, best, d, n, w);
    if n > 0 {
      StreamsWakeAre(g, best, d, n - 1, w);
    }
  }

  lemma FilterWakes(g: Graph, best: seq<nat>, dst: Node, w: Waiter)
    requires Schedulable(g) && BestOk(g, best) && IsFed(g, dst) && dst.kind == FILTER_IN
    ensures w in Wakes(g, best, dst) <==> NeedsTask(g, best, dst, w)
  {
    hide WaitsFor, Resolve, FilterRank;
    if best[dst.idx] < |g.filters[dst.idx].inputs| {
      InputIsGrounded(g, dst.idx, best[dst.idx]);
      hide Schedulable, IsGrounded;
      WaitsForOne(g, best, g.filters[dst.idx].inputs[best[dst.idx]], w);
    }
  }

  lemma InputIsGrounded(g: Graph, f: nat, j: nat)
    requires Schedulable(g) && f < |g.filters| && j < |g.filters[f].inputs|
    ensures IsGrounded(g, g.filters[f].inputs[j])
  {
    InputIsSource(g, f, j);
  }

  lemma {:induction false} WakesByWalk(g: Graph, best: seq<nat>, dst: Node, w: Waiter)
    requires Schedulable(g) && BestOk(g, best) && IsFed(g, dst) && w in Wakes(g, best, dst)
    ensures Wakens(g, best, dst, w)
    decreases Below(g, dst)
  {
    if dst.kind == DEC {
      OutputsWakeAre(g, best, dst.idx, |g.dec[dst.idx].outputs|, w);
      var k :| 0 <= k < |g.dec[dst.idx].outputs| && OutputWakes(g, best, dst.idx, k, w);
      OutputIsBelow(g, dst.idx, k);
      WakesByWalk(g, best, FirstSink(g, dst.idx, k), w);
      WakensOn(g, best, dst, FirstSink(g, dst.idx, k), w);
    } else if dst.kind == ENC {
      PacketsWakeAre(g, best, dst.idx, |g.enc[dst.idx].dst|, w);
      var k :| 0 <= k < |g.enc[dst.idx].dst| && PacketWakes(g, best, dst.idx, k, w);
      PacketIsBelow(g, dst.idx, k);
      WakesByWalk(g, best, g.enc[dst.idx].dst[k], w);
      WakensOn(g, best, dst, g.enc[dst.idx].dst[k], w);
    } else {
      FilterWakes(g, best, dst, w);
      assert IsWalkDown(g, [dst]) && NeedsTask(g, best, [dst][0], w);
    }
  }

  lemma StepDownWakes(g: Graph, best: seq<nat>, n: Node, m: Node, w: Waiter)
    requires Schedulable(g) && BestOk(g, best) && IsFed(g, n) && GoesTo(g, n, m)
    ensures IsFed(g, m) && (w in Wakes(g, best, m) ==> w in Wakes(g, best, n))
  {
    if n.kind == DEC {
      var k :| 0 <= k < |g.dec[n.idx].outputs| && g.dec[n.idx].outputs[k] != [] && g.dec[n.idx].outputs[k][0] == m;
      OutputIsBelow(g, n.idx, k);
      OutputsWakeAre(g, best, n.idx, |g.dec[n.idx].outputs|, w);
      assert OutputWakes(g, best, n.idx, k, w) <==> w in Wakes(g, best, m);
    } else {
      var k :| 0 <= k < |g.enc[n.idx].dst| && g.enc[n.idx].dst[k] == m;
      PacketIsBelow(g, n.idx, k);
      PacketsWakeAre(g, best, n.idx, |g.enc[n.idx].dst|, w);
      assert PacketWakes(g, best, n.idx, k, w) <==> w in Wakes(g, best, m);
    }
  }

  lemma WalkDownTail(g: Graph, p: seq<Node>)
    requires IsWalkDown(g, p) && |p| > 1
    ensures IsSink(g, p[0]) && GoesTo(g, p[0], p[1]) && IsWalkDown(g, p[1..]) && p[1..][|p| - 2] == p[|p| - 1]
  {
  }

  lemma {:induction false} WalkWakes(g: Graph, best: seq<nat>, p: seq<Node>, w: Waiter)
    requires Schedulable(g) && BestOk(g, best) && p != [] && IsFed(g, p[0])
    requires IsWalkDown(g, p) && NeedsTask(g, best, p[|p| - 1], w)
    ensures w in Wakes(g, best, p[0])
    decreases |p|
  {
    if |p| == 1 {
      FilterWakes(g, best, p[0], w);
    } else {
      hide IsWalkDown, NeedsTask;
      WalkDownTail(g, p);
      StepDownWakes(g, best, p[0], p[1], w);
      WalkWakes(g, best, p[1..], w);
    }
  }

  /** The tasks woken for a sink are those that some walk down from it leads to. */
  lemma WakesExactly(g: Graph, best: seq<nat>, dst: Node, w: Waiter)
    requires Schedulable(g) && BestOk(g, best) && IsFed(g, dst)
    ensures w in Wakes(g, best, dst) <==> Wakens(g, best, dst, w)
  {
    if w in Wakes(g, best, dst) {
      WakesByWalk(g, best, dst, w);
    }
    if Wakens(g, best, dst, w) {
      var p: seq<Node> :| p != [] && p[0] == dst && IsWalkDown(g, p) && NeedsTask(g, best, p[|p| - 1], w);
      WalkWakes(g, best, p, w);
    }
  }

  // ---- What a running demuxer brings with it ----

  /** Task a is a demuxer one of whose streams, by its first sink, needs task b. */
  ghost predicate Brings(g: Graph, best: seq<nat>, a: Waiter, b: Waiter)
    requires BestOk(g, best)
  {
    a.OnDemux? && a.idx < |g.demux| &&
    exists j | 0 <= j < |g.demux[a.idx]| && g.demux[a.idx][j] != [] :: Wakens(g, best, g.demux[a.idx][j][0], b)
  }

  lemma BringsExactly(g: Graph, best: seq<nat>, d: nat, w: Waiter)
    requires Schedulable(g) && BestOk(g, best) && d < |g.demux|
    ensures w in DemuxWakes(g, best, d) <==> Brings(g, best, OnDemux(d), w)
  {
    StreamsWakeAre(g, best, d, |g.demux[d]|, w);
    forall j | 0 <= j < |g.demux[d]|
      ensures g.demux[d][j] != [] && (StreamWakes(g, best, d, j, w) <==> Wakens(g, best, g.demux[d][j][0], w))
    {
      StreamHasSink(g, d, j);
      WakesExactly(g, best, g.demux[d][j][0], w);
    }
  }

  ghost predicate IsChain(g: Graph, best: seq<nat>, ws: seq<Waiter>)
    requires BestOk(g, best)
  {
    forall k | 0 <= k < |ws| - 1 :: Brings(g, best, ws[k], ws[k + 1])
  }

  ghost predicate IsReached(g: Graph, best: seq<nat>, seeds: set<Waiter>, w: Waiter)
    requires BestOk(g, best)
  {
    exists ws: seq<Waiter> | ws != [] && ws[0] in seeds && IsChain(g, best, ws) :: ws[|ws| - 1] == w
  }

  lemma ReachedOn(g: Graph, best: seq<nat>, seeds: set<Waiter>, a: Waiter, b: Waiter)
    requires BestOk(g, best) && IsReached(g, best, seeds, a) && Brings(g, best, a, b)
    ensures IsReached(g, best, seeds, b)
  {
    hide Brings;
    var ws: seq<Waiter> :| ws != [] && ws[0] in seeds && IsChain(g, best, ws) && ws[|ws| - 1] == a;
    var xs := ws + [b];
    assert IsChain(g, best, xs) && xs[|xs| - 1] == b;
  }

  lemma {:induction false} ChainStays(g: Graph, best: seq<nat>, s: set<Waiter>, ws: seq<Waiter>)
    requires Schedulable(g) && BestOk(g, best) && IsClosed(g, best, s)
    requires ws != [] && ws[0] in s && IsChain(g, best, ws)
    ensures ws[|ws| - 1] in s
    decreases |ws|
  {
    hide Brings;
    if |ws| > 1 {
      var front := ws[..|ws| - 1];
      ChainStays(g, best, s, front);
      BroughtStays(g, best, s, ws[|ws| - 2], ws[|ws| - 1]);
    }
  }

  lemma BroughtStays(g: Graph, best: seq<nat>, s: set<Waiter>, a: Waiter, b: Waiter)
    requires Schedulable(g) && BestOk(g, best) && IsClosed(g, best, s) && a in s && Brings(g, best, a, b)
    ensures b in s
  {
    BringsExactly(g, best, a.idx, b);
  }

  lemma ReachedIsClosed(g: Graph, best: seq<nat>, seeds: set<Waiter>, s: set<Waiter>, u: set<Waiter>)
    requires Schedulable(g) && BestOk(g, best) && IsClosed(g, best, s)
    requires u == set w | w in s && IsReached(g, best, seeds, w)
    ensures IsClosed(g, best, u)
  {
    forall d, w | 0 <= d < |g.demux| && OnDemux(d) in u && w in DemuxWakes(g, best, d) ensures w in u {
      BringsExactly(g, best, d, w);
      ReachedOn(g, best, seeds, OnDemux(d), w);
    }
  }

  /** The least closed set of some seeds is what chains lead to from them. */
  lemma ClosureIsReached(g: Graph, best: seq<nat>, seeds: set<Waiter>, s: set<Waiter>, w: Waiter)
    requires Schedulable(g) && BestOk(g, best) && IsClosure(g, best, seeds, s)
    ensures w in s <==> IsReached(g, best, seeds, w)
  {
    var u := set v | v in s && IsReached(g, best, seeds, v);
    ReachedIsClosed(g, best, seeds, s, u);
    forall v | v in seeds ensures v in u {
      assert [v][0] in seeds && IsChain(g, best, [v]);
    }
    if IsReached(g, best, seeds, w) {
      var ws: seq<Waiter> :| ws != [] && ws[0] in seeds && IsChain(g, best, ws) && ws[|ws| - 1] == w;
      ChainStays(g, best, s, ws);
    }
  }

  // ---- What an update leaves running ----

  /** `n` is the source of a stream that wants data, or of a filtergraph input that takes no
      more while its source has not been told. */
  ghost predicate IsAsked(g: Graph, mux: seq<seq<MuxStream>>, ins: seq<seq<FilterIn>>, n: Node)
    requires MuxShape(g, mux) && InputShape(g, ins)
  {
    || (exists i, j | 0 <= i < |mux| && 0 <= j < |mux[i]| && g.mux[i][j] == n :: Wants(mux, i, j))
    || (exists f, j | 0 <= f < |ins| && 0 <= j < |ins[f]| && g.filters[f].inputs[j] == n ::
          ins[f][j].receiveFinished && !ins[f][j].sendFinished)
  }

  lemma AskedIsWanted(g: Graph, mux: seq<seq<MuxStream>>, dts: Option<int>, ins: seq<seq<FilterIn>>, n: Node)
    requires MuxShape(g, mux) && InputShape(g, ins) && IsTrailing(mux, false, dts)
    ensures n in Asked(g, mux, dts, ins) <==> IsAsked(g, mux, ins, n)
  {
    AskedAre(g, mux, dts, ins, n);
    forall i, j | 0 <= i < |mux| && 0 <= j < |mux[i]|
      ensures StreamAsks(g, mux, dts, i, j, n) <==> g.mux[i][j] == n && Wants(mux, i, j)
    {
      EligibleIsWanting(mux, dts, i, j);
    }
    assert forall f, j | 0 <= f < |ins| && 0 <= j < |ins[f]| ::
             InputAsksFor(g, ins, f, j, n) <==>
             g.filters[f].inputs[j] == n && ins[f][j].receiveFinished && !ins[f][j].sendFinished;
  }

  /** From a task that an asked source waits for, a chain of demuxers and what they bring
      leads to task w. */
  ghost predicate IsNeeded(g: Graph, best: seq<nat>, mux: seq<seq<MuxStream>>, ins: seq<seq<FilterIn>>, w: Waiter)
    requires BestOk(g, best) && MuxShape(g, mux) && InputShape(g, ins)
  {
    exists n, ws: seq<Waiter> | IsAsked(g, mux, ins, n) && ws != [] && WaitsFor(g, best, n, ws[0]) ::
      IsChain(g, best, ws) && ws[|ws| - 1] == w
  }

  lemma SeedsAre(g: Graph, best: seq<nat>, nodes: seq<Node>, w: Waiter)
    requires Schedulable(g) && BestOk(g, best) && AllGrounded(g, nodes)
    ensures w in Seeds(g, best, nodes) <==> exists n | n in nodes :: WaitsFor(g, best, n, w)
  {
    forall n | n in nodes ensures WaitsFor(g, best, n, w) <==> w == Resolve(g, best, n) {
      WaitsForOne(g, best, n, w);
    }
  }

  lemma ReachedIsNeeded(g: Graph, best: seq<nat>, mux: seq<seq<MuxStream>>, dts: Option<int>,
                        ins: seq<seq<FilterIn>>, w: Waiter)
    requires Schedulable(g) && BestOk(g, best) && MuxShape(g, mux) && InputShape(g, ins)
    requires IsTrailing(mux, false, dts) && AllGrounded(g, Asked(g, mux, dts, ins))
    ensures IsReached(g, best, Seeds(g, best, Asked(g, mux, dts, ins)), w) <==> IsNeeded(g, best, mux, ins, w)
  {
    hide WaitsFor, Seeds, Asked, IsChain, IsAsked, Schedulable, IsTrailing, IsGrounded;
    var asked := Asked(g, mux, dts, ins);
    if IsReached(g, best, Seeds(g, best, asked), w) {
      var ws: seq<Waiter> :| ws != [] && ws[0] in Seeds(g, best, asked) && IsChain(g, best, ws) && ws[|ws| - 1] == w;
      SeedsAre(g, best, asked, ws[0]);
      var n :| n in asked && WaitsFor(g, best, n, ws[0]);
      AskedIsWanted(g, mux, dts, ins, n);
    }
    if IsNeeded(g, best, mux, ins, w) {
      var n, ws: seq<Waiter> :| IsAsked(g, mux, ins, n) && ws != [] && WaitsFor(g, best, n, ws[0])
        && IsChain(g, best, ws) && ws[|ws| - 1] == w;
      AskedIsWanted(g, mux, dts, ins, n);
      SeedsAre(g, best, asked, ws[0]);
    }
  }

  /** The first demuxer that has not exited or, when all have, the first filtergraph. */
  predicate IsFirstLeft(demuxExited: seq<bool>, filterExited: seq<bool>, w: Waiter) {
    match w
    case OnDemux(d) => d < |demuxExited| && !demuxExited[d] && forall k | 0 <= k < d :: demuxExited[k]
    case OnFilter(f) =>
      && (forall k | 0 <= k < |demuxExited| :: demuxExited[k])
      && f < |filterExited| && !filterExited[f] && forall k | 0 <= k < f :: filterExited[k]
  }

  lemma FirstLiveIs(demuxExited: seq<bool>, filterExited: seq<bool>, w: Waiter)
    ensures w in FirstLive(demuxExited, filterExited) <==> IsFirstLeft(demuxExited, filterExited, w)
  {
    if w.OnDemux? && IsFirstLeft(demuxExited, filterExited, w) {
      FirstFalseIs(demuxExited, w.idx);
    } else if w.OnFilter? && IsFirstLeft(demuxExited, filterExited, w) {
      FirstFalseIs(filterExited, w.idx);
    }
  }

  /** An update leaves running exactly the tasks that are needed and, when no stream is left
      to feed, the first that has not exited. */
  lemma RunningExactly(g: Graph, best: seq<nat>, mux: seq<seq<MuxStream>>, dts: Option<int>,
                       ins: seq<seq<FilterIn>>, demuxExited: seq<bool>, filterExited: seq<bool>,
                       core: set<Waiter>, running: set<Waiter>, w: Waiter)
    requires Schedulable(g) && BestOk(g, best) && MuxShape(g, mux) && InputShape(g, ins)
    requires Decided(g, best, mux, dts, ins, demuxExited, filterExited, core, running)
    ensures w in running <==>
            || IsNeeded(g, best, mux, ins, w)
            || (!AnyOpen(mux) && IsFirstLeft(demuxExited, filterExited, w))
  {
    hide IsClosure, IsNeeded, IsReached, IsTrailing, Asked, Seeds, Schedulable;
    ClosureIsReached(g, best, Seeds(g, best, Asked(g, mux, dts, ins)), core, w);
    ReachedIsNeeded(g, best, mux, dts, ins, w);
    EligibleExactly(mux, dts);
    FirstLiveIs(demuxExited, filterExited, w);
  }
}
