/** Which streams ask for data: the trailing timestamp and the streams near it. */
module Demand {
  import opened Topology
  import opened Options
  import opened Acyclic
  import opened Unchoking

  /** Microseconds a stream may be ahead of the trailing one. */
  const SCHEDULE_TOLERANCE := 100 * 1000
  const INT64_MAX := 0x7fff_ffff_ffff_ffff

  /** A muxed stream: up to when it was fed, and whether it takes no more. */
  datatype MuxStream = MuxStream(lastDts: Option<int>, sourceFinished: bool)
  datatype FilterIn = FilterIn(sendFinished: bool, receiveFinished: bool)

  predicate Counts(m: MuxStream, countFinished: bool) {
    !m.sourceFinished || countFinished
  }

  /** `r` is the least timestamp of the counted streams; none if one of them has no
      timestamp yet or there is nothing to compare. */
  ghost predicate IsTrailing(mux: seq<seq<MuxStream>>, countFinished: bool, r: Option<int>) {
    if (exists i, j | 0 <= i < |mux| && 0 <= j < |mux[i]| ::
          Counts(mux[i][j], countFinished) && mux[i][j].lastDts == None)
    then r == None
    else if (exists i, j | 0 <= i < |mux| && 0 <= j < |mux[i]| ::
               Counts(mux[i][j], countFinished) && mux[i][j].lastDts.value < INT64_MAX)
    then
      && r.Some?
      && (exists i, j | 0 <= i < |mux| && 0 <= j < |mux[i]| ::
            Counts(mux[i][j], countFinished) && mux[i][j].lastDts == r)
      && (forall i, j | 0 <= i < |mux| && 0 <= j < |mux[i]| && Counts(mux[i][j], countFinished) ::
            r.value <= mux[i][j].lastDts.value)
    else r == None
  }

  /** A stream that takes more and whose dts is within the tolerance of the trailing one. */
  predicate Eligible(m: MuxStream, dts: Option<int>) {
    && !m.sourceFinished
    && !(dts.None? && m.lastDts.Some?)
    && !(dts.Some? && m.lastDts.Some? && m.lastDts.value - dts.value >= SCHEDULE_TOLERANCE)
  }

  /** A closed filtergraph input whose source has not yet seen the end of stream. */
  predicate Unnoticed(fi: FilterIn) {
    fi.receiveFinished && !fi.sendFinished
  }

  ghost predicate MuxShape(g: Graph, mux: seq<seq<MuxStream>>) {
    |mux| == |g.mux| && forall i | 0 <= i < |mux| :: |mux[i]| == |g.mux[i]|
  }

  ghost predicate InputShape(g: Graph, ins: seq<seq<FilterIn>>) {
    |ins| == |g.filters| && forall f | 0 <= f < |ins| :: |ins[f]| == |g.filters[f].inputs|
  }

  // ---- The sources asked for ----

  /** `base` and the sources of the eligible streams among the first `k` of a muxer. */
  ghost function RowAsks(base: seq<Node>, row: seq<MuxStream>, srcs: seq<Node>, dts: Option<int>, k: nat): seq<Node>
    requires k <= |row| == |srcs|
  {
    if k == 0 then base
    else
      var before := RowAsks(base, row, srcs, dts, k - 1);
      if Eligible(row[k - 1], dts) then before + [srcs[k - 1]] else before
  }

  /** The sources of the eligible streams of the first `n` muxers. */
  ghost function MuxAsks(g: Graph, mux: seq<seq<MuxStream>>, dts: Option<int>, n: nat): seq<Node>
    requires MuxShape(g, mux) && n <= |mux|
  {
    if n == 0 then []
    else RowAsks(MuxAsks(g, mux, dts, n - 1), mux[n - 1], g.mux[n - 1], dts, |mux[n - 1]|)
  }

  ghost function PadAsks(base: seq<Node>, row: seq<FilterIn>, srcs: seq<Node>, k: nat): seq<Node>
    requires k <= |row| == |srcs|
  {
    if k == 0 then base
    else
      var before := PadAsks(base, row, srcs, k - 1);
      if Unnoticed(row[k - 1]) then before + [srcs[k - 1]] else before
  }

  /** `base` and the sources feeding closed inputs of the first `n` filtergraphs. */
  ghost function InputAsks(g: Graph, base: seq<Node>, ins: seq<seq<FilterIn>>, n: nat): seq<Node>
    requires InputShape(g, ins) && n <= |ins|
  {
    if n == 0 then base
    else PadAsks(InputAsks(g, base, ins, n - 1), ins[n - 1], g.filters[n - 1].inputs, |ins[n - 1]|)
  }

  /** The sources asked for directly; AskedAre says which they are. */
  ghost function Asked(g: Graph, mux: seq<seq<MuxStream>>, dts: Option<int>, ins: seq<seq<FilterIn>>): seq<Node>
    requires MuxShape(g, mux) && InputShape(g, ins)
  {
    InputAsks(g, MuxAsks(g, mux, dts, |mux|), ins, |ins|)
  }

  ghost predicate StreamAsks(g: Graph, mux: seq<seq<MuxStream>>, dts: Option<int>, i: nat, j: nat, n: Node)
    requires MuxShape(g, mux) && i < |mux| && j < |mux[i]|
  {
    Eligible(mux[i][j], dts) && g.mux[i][j] == n
  }

  ghost predicate InputAsksFor(g: Graph, ins: seq<seq<FilterIn>>, f: nat, j: nat, n: Node)
    requires InputShape(g, ins) && f < |ins| && j < |ins[f]|
  {
    Unnoticed(ins[f][j]) && g.filters[f].inputs[j] == n
  }

  lemma {:induction false} RowAsksAre(g: Graph, base: seq<Node>, mux: seq<seq<MuxStream>>, dts: Option<int>,
                                      i: nat, k: nat, n: Node)
    requires MuxShape(g, mux) && i < |mux| && k <= |mux[i]|
    ensures n in RowAsks(base, mux[i], g.mux[i], dts, k)
      <==> n in base || exists j | 0 <= j < k :: StreamAsks(g, mux, dts, i, j, n)
    decreases k
  {
    if k > 0 {
      RowAsksAre(g, base, mux, dts, i, k - 1, n);
      assert StreamAsks(g, mux, dts, i, k - 1, n) <==> Eligible(mux[i][k - 1], dts) && g.mux[i][k - 1] == n;
    }
  }

  lemma {:induction false} MuxAsksAre(g: Graph, mux: seq<seq<MuxStream>>, dts: Option<int>, m: nat, n: Node)
    requires MuxShape(g, mux) && m <= |mux|
    ensures n in MuxAsks(g, mux, dts, m)
      <==> exists i, j | 0 <= i < m && 0 <= j < |mux[i]| :: StreamAsks(g, mux, dts, i, j, n)
    decreases m
  {
    if m > 0 {
      MuxAsksAre(g, mux, dts, m - 1, n);
      RowAsksAre(g, MuxAsks(g, mux, dts, m - 1), mux, dts, m - 1, |mux[m - 1]|, n);
    }
  }

  lemma {:induction false} PadAsksAre(g: Graph, base: seq<Node>, ins: seq<seq<FilterIn>>, f: nat, k: nat, n: Node)
    requires InputShape(g, ins) && f < |ins| && k <= |ins[f]|
    ensures n in PadAsks(base, ins[f], g.filters[f].inputs, k)
      <==> n in base || exists j | 0 <= j < k :: InputAsksFor(g, ins, f, j, n)
    decreases k
  {
    if k > 0 {
      PadAsksAre(g, base, ins, f, k - 1, n);
      assert InputAsksFor(g, ins, f, k - 1, n) <==> Unnoticed(ins[f][k - 1]) && g.filters[f].inputs[k - 1] == n;
    }
  }

  lemma {:induction false} InputAsksAre(g: Graph, base: seq<Node>, ins: seq<seq<FilterIn>>, m: nat, n: Node)
    requires InputShape(g, ins) && m <= |ins|
    ensures n in InputAsks(g, base, ins, m)
      <==> n in base || exists f, j | 0 <= f < m && 0 <= j < |ins[f]| :: InputAsksFor(g, ins, f, j, n)
    decreases m
  {
    if m > 0 {
      InputAsksAre(g, base, ins, m - 1, n);
      PadAsksAre(g, InputAsks(g, base, ins, m - 1), ins, m - 1, |ins[m - 1]|, n);
    }
  }

  /** The sources asked for are those of the eligible streams and those of the inputs
      that are closed without their source having noticed. */
  lemma AskedAre(g: Graph, mux: seq<seq<MuxStream>>, dts: Option<int>, ins: seq<seq<FilterIn>>, n: Node)
    requires MuxShape(g, mux) && InputShape(g, ins)
    ensures n in Asked(g, mux, dts, ins) <==>
      (exists i, j | 0 <= i < |mux| && 0 <= j < |mux[i]| :: StreamAsks(g, mux, dts, i, j, n))
      || (exists f, j | 0 <= f < |ins| && 0 <= j < |ins[f]| :: InputAsksFor(g, ins, f, j, n))
  {
    MuxAsksAre(g, mux, dts, |mux|, n);
    InputAsksAre(g, MuxAsks(g, mux, dts, |mux|), ins, |ins|, n);
  }

  // ---- The tasks resolved from them ----

  ghost predicate AllGrounded(g: Graph, nodes: seq<Node>)
    requires Wired(g)
  {
    forall n | n in nodes :: IsGrounded(g, n)
  }

  ghost function Seeds(g: Graph, best: seq<nat>, nodes: seq<Node>): set<Waiter>
    requires Schedulable(g) && BestOk(g, best) && AllGrounded(g, nodes)
  {
    set n | n in nodes :: Resolve(g, best, n)
  }

  lemma OneMoreSeed(g: Graph, best: seq<nat>, nodes: seq<Node>, n: Node)
    requires Schedulable(g) && BestOk(g, best) && AllGrounded(g, nodes) && IsGrounded(g, n)
    ensures AllGrounded(g, nodes + [n])
    ensures Seeds(g, best, nodes + [n]) == Seeds(g, best, nodes) + {Resolve(g, best, n)}
  {
    assert forall m :: m in nodes + [n] <==> m in nodes || m == n;
  }

  lemma MuxStreamIsGrounded(g: Graph, i: nat, j: nat)
    requires Wired(g) && MuxesEnd(g) && i < |g.mux| && j < |g.mux[i]|
    ensures IsGrounded(g, g.mux[i][j])
  {
    SinkHasSource(g, Node(MUX, i, j));
  }

  ghost predicate AnyEligible(mux: seq<seq<MuxStream>>, dts: Option<int>) {
    exists i, j :: 0 <= i < |mux| && 0 <= j < |mux[i]| && Eligible(mux[i][j], dts)
  }

  /** The decoder that is the first sink of a demuxer stream, if one is. */
  ghost function StreamDecoder(g: Graph, d: nat, j: nat): set<nat>
    requires Wired(g) && d < |g.demux| && j < |g.demux[d]|
  {
    StreamHasSink(g, d, j);
    var dst := g.demux[d][j][0];
    if dst.kind == DEC then {dst.idx} else {}
  }

  /** The decoders that are the first sink of one of the first `k` streams of a demuxer. */
  ghost function FirstDecoders(g: Graph, d: nat, k: nat): set<nat>
    requires Wired(g) && d < |g.demux| && k <= |g.demux[d]|
  {
    if k == 0 then {} else FirstDecoders(g, d, k - 1) + StreamDecoder(g, d, k - 1)
  }

  lemma {:induction false} FirstDecoderSource(g: Graph, d: nat, k: nat, x: nat)
    requires Wired(g) && d < |g.demux| && k <= |g.demux[d]| && x in FirstDecoders(g, d, k)
    ensures x < |g.dec| && g.dec[x].src.kind == DEMUX && g.dec[x].src.idx == d
  {
    if x in FirstDecoders(g, d, k - 1) {
      FirstDecoderSource(g, d, k - 1, x);
    } else {
      StreamHasSink(g, d, k - 1);
      assert SourceOf(g, g.demux[d][k - 1][0]) == Node(DEMUX, d, k - 1) by {
        SourceHasSink(g, Node(DEMUX, d, k - 1), 0);
      }
    }
  }

  /** Decoder x is the first sink of a stream of demuxer d. */
  predicate IsFirstSink(g: Graph, d: nat, x: nat)
    requires d < |g.demux|
  {
    exists j | 0 <= j < |g.demux[d]| && g.demux[d][j] != [] :: g.demux[d][j][0] == Node(DEC, x, 0)
  }

  lemma {:induction false} FirstDecodersUpTo(g: Graph, d: nat, k: nat, x: nat)
    requires Wired(g) && d < |g.demux| && k <= |g.demux[d]|
    ensures x in FirstDecoders(g, d, k) <==>
            exists j | 0 <= j < k && g.demux[d][j] != [] :: g.demux[d][j][0] == Node(DEC, x, 0)
  {
    if k > 0 {
      FirstDecodersUpTo(g, d, k - 1, x);
      StreamHasSink(g, d, k - 1);
    }
  }

  lemma FirstDecodersAre(g: Graph, d: nat, x: nat)
    requires Wired(g) && d < |g.demux|
    ensures x in FirstDecoders(g, d, |g.demux[d]|) <==> IsFirstSink(g, d, x)
  {
    FirstDecodersUpTo(g, d, |g.demux[d]|, x);
  }

  /** A decoder queue follows the demuxer it is the first sink of, when that demuxer
      is held or released; otherwise it stays as it was. */
  ghost function Refrozen(g: Graph, x: nat, prev: seq<bool>, next: seq<bool>, was: bool, k: nat): bool
    requires Wired(g) && x < |g.dec| && |prev| == |next| == |g.demux| && k <= |g.demux|
  {
    var src := g.dec[x].src;
    if src.kind == DEMUX && src.idx < k && prev[src.idx] != next[src.idx]
      && x in FirstDecoders(g, src.idx, |g.demux[src.idx]|)
    then next[src.idx] else was
  }

  /** A queue that was frozen or open like the demuxer it is fed by, as its first sink, is
      so after the update; the queue of a decoder that is nobody's first sink stays. */
  lemma QueuesFollow(g: Graph, x: nat, prev: seq<bool>, next: seq<bool>, was: bool)
    requires Wired(g) && x < |g.dec| && |prev| == |next| == |g.demux|
    ensures var now := Refrozen(g, x, prev, next, was, |g.demux|);
            && (forall d | 0 <= d < |g.demux| && IsFirstSink(g, d, x) ::
                  now == (if prev[d] != next[d] then next[d] else was) && (was == prev[d] ==> now == next[d]))
            && ((forall d | 0 <= d < |g.demux| :: !IsFirstSink(g, d, x)) ==> now == was)
  {
    forall d | 0 <= d < |g.demux| ensures x in FirstDecoders(g, d, |g.demux[d]|) <==> IsFirstSink(g, d, x) {
      FirstDecodersAre(g, d, x);
    }
    forall d | 0 <= d < |g.demux| && IsFirstSink(g, d, x) ensures g.dec[x].src.kind == DEMUX && g.dec[x].src.idx == d {
      FirstDecoderSource(g, d, |g.demux[d]|, x);
    }
  }

  /** First task that has not exited, demuxers before filtergraphs. */
  ghost function FirstLive(demuxExited: seq<bool>, filterExited: seq<bool>): (s: set<Waiter>)
    ensures s == {} <==> (forall d | 0 <= d < |demuxExited| :: demuxExited[d])
                         && (forall f | 0 <= f < |filterExited| :: filterExited[f])
  {
    match FirstFalse(demuxExited)
    case Some(d) => {OnDemux(d)}
    case None =>
      match FirstFalse(filterExited)
      case Some(f) => {OnFilter(f)}
      case None => {}
  }

  ghost function FirstFalse(s: seq<bool>): (r: Option<nat>)
    ensures r.Some? ==> r.value < |s| && !s[r.value] && forall i | 0 <= i < r.value :: s[i]
    ensures r.None? ==> forall i | 0 <= i < |s| :: s[i]
  {
    if s == [] then None
    else if !s[0] then Some(0)
    else
      match FirstFalse(s[1..])
      case Some(i) => Some(i + 1)
      case None => None
  }

  lemma FirstFalseIs(s: seq<bool>, k: nat)
    requires k < |s| && !s[k] && forall i | 0 <= i < k :: s[i]
    ensures FirstFalse(s) == Some(k)
  {
  }

  /** What an update decides: `running` is the least closed set of the seeds, `core`,
      and, when no muxed stream asks for data, one more task that can still run. */
  ghost predicate Decided(g: Graph, best: seq<nat>, mux: seq<seq<MuxStream>>, dts: Option<int>,
                          ins: seq<seq<FilterIn>>, demuxExited: seq<bool>, filterExited: seq<bool>,
                          core: set<Waiter>, running: set<Waiter>)
    requires Schedulable(g) && BestOk(g, best) && MuxShape(g, mux) && InputShape(g, ins)
  {
    && IsTrailing(mux, false, dts)
    && AllGrounded(g, Asked(g, mux, dts, ins))
    && IsClosure(g, best, Seeds(g, best, Asked(g, mux, dts, ins)), core)
    && running == core + (if AnyEligible(mux, dts) then {} else FirstLive(demuxExited, filterExited))
  }

  /** The decision is a function of the state: it does not depend on the order in
      which muxers, streams and filtergraphs are gone through. */
  lemma DecisionIsUnique(g: Graph, best: seq<nat>, mux: seq<seq<MuxStream>>, dts: Option<int>, dts': Option<int>,
                         ins: seq<seq<FilterIn>>, demuxExited: seq<bool>, filterExited: seq<bool>,
                         core: set<Waiter>, running: set<Waiter>, core': set<Waiter>, running': set<Waiter>)
    requires Schedulable(g) && BestOk(g, best) && MuxShape(g, mux) && InputShape(g, ins)
    requires Decided(g, best, mux, dts, ins, demuxExited, filterExited, core, running)
    requires Decided(g, best, mux, dts', ins, demuxExited, filterExited, core', running')
    ensures dts == dts' && core == core' && running == running'
  {
    TrailingIsUnique(mux, false, dts, dts');
    ClosureIsUnique(g, best, Seeds(g, best, Asked(g, mux, dts, ins)), core, core');
  }

  lemma TrailingIsUnique(mux: seq<seq<MuxStream>>, countFinished: bool, r: Option<int>, r': Option<int>)
    requires IsTrailing(mux, countFinished, r) && IsTrailing(mux, countFinished, r')
    ensures r == r'
  {
    if r.Some? && r'.Some? {
      var i, j :| 0 <= i < |mux| && 0 <= j < |mux[i]|
        && Counts(mux[i][j], countFinished) && mux[i][j].lastDts == r;
      var i', j' :| 0 <= i' < |mux| && 0 <= j' < |mux[i']|
        && Counts(mux[i'][j'], countFinished) && mux[i'][j'].lastDts == r';
    }
  }

  lemma EligibleRuns(g: Graph, best: seq<nat>, mux: seq<seq<MuxStream>>, dts: Option<int>,
                     ins: seq<seq<FilterIn>>, core: set<Waiter>, i: nat, j: nat)
    requires Schedulable(g) && BestOk(g, best) && MuxShape(g, mux) && InputShape(g, ins)
    requires AllGrounded(g, Asked(g, mux, dts, ins)) && Seeds(g, best, Asked(g, mux, dts, ins)) <= core
    requires i < |mux| && j < |mux[i]| && Eligible(mux[i][j], dts)
    ensures IsGrounded(g, g.mux[i][j]) && Resolve(g, best, g.mux[i][j]) in core
  {
    assert StreamAsks(g, mux, dts, i, j, g.mux[i][j]);
    AskedAre(g, mux, dts, ins, g.mux[i][j]);
  }

  /** The source of every unfinished stream at the trailing timestamp, or without a
      timestamp while there is no trailing one, may run. */
  lemma TrailingStreamRuns(g: Graph, best: seq<nat>, mux: seq<seq<MuxStream>>, dts: Option<int>,
                           ins: seq<seq<FilterIn>>, demuxExited: seq<bool>, filterExited: seq<bool>,
                           core: set<Waiter>, running: set<Waiter>, i: nat, j: nat)
    requires Schedulable(g) && BestOk(g, best) && MuxShape(g, mux) && InputShape(g, ins)
    requires Decided(g, best, mux, dts, ins, demuxExited, filterExited, core, running)
    requires i < |mux| && j < |mux[i]| && !mux[i][j].sourceFinished && mux[i][j].lastDts == dts
    ensures IsGrounded(g, g.mux[i][j]) && Resolve(g, best, g.mux[i][j]) in running
  {
    EligibleRuns(g, best, mux, dts, ins, core, i, j);
  }

  // ---- Whether anything goes on ----

  /** A stream that may have to be fed; no timestamp is as great as INT64_MAX. */
  predicate IsOpen(m: MuxStream) {
    !m.sourceFinished && (m.lastDts.Some? ==> m.lastDts.value < INT64_MAX)
  }

  ghost predicate AnyOpen(mux: seq<seq<MuxStream>>) {
    exists i, j :: 0 <= i < |mux| && 0 <= j < |mux[i]| && IsOpen(mux[i][j])
  }

  /** Some stream is eligible exactly when some is open: the trailing one always is. */
  lemma EligibleExactly(mux: seq<seq<MuxStream>>, dts: Option<int>)
    requires IsTrailing(mux, false, dts)
    ensures AnyEligible(mux, dts) <==> AnyOpen(mux)
  {
    if i, j :| 0 <= i < |mux| && 0 <= j < |mux[i]| && IsOpen(mux[i][j]) {
      if a, b :| 0 <= a < |mux| && 0 <= b < |mux[a]| && Counts(mux[a][b], false) && mux[a][b].lastDts == None {
        assert Eligible(mux[a][b], dts);
      } else {
        assert Counts(mux[i][j], false);
        var a, b :| 0 <= a < |mux| && 0 <= b < |mux[a]| && Counts(mux[a][b], false) && mux[a][b].lastDts == dts;
        assert Eligible(mux[a][b], dts);
      }
    }
    if i, j :| 0 <= i < |mux| && 0 <= j < |mux[i]| && Eligible(mux[i][j], dts) {
      EligibleMeansOpen(mux, dts, i, j);
    }
  }

  lemma EligibleMeansOpen(mux: seq<seq<MuxStream>>, dts: Option<int>, i: nat, j: nat)
    requires IsTrailing(mux, false, dts) && i < |mux| && j < |mux[i]| && Eligible(mux[i][j], dts)
    ensures AnyOpen(mux)
  {
    if !IsOpen(mux[i][j]) {
      var a, b :| 0 <= a < |mux| && 0 <= b < |mux[a]|
        && Counts(mux[a][b], false) && mux[a][b].lastDts.value < INT64_MAX;
      assert IsOpen(mux[a][b]);
    }
  }

  /** A task that has a thread is not held. */
  ghost predicate GoesOn(g: Graph, running: set<Waiter>) {
    exists w :: w in running && HasThread(g, w)
  }

  /** The first task that has not exited has a thread. */
  ghost predicate FirstCanRun(g: Graph, demuxExited: seq<bool>, filterExited: seq<bool>)
    requires |demuxExited| == |g.demux| && |filterExited| == |g.filters|
  {
    match FirstFalse(demuxExited)
    case Some(d) => g.demux[d] != []
    case None => FirstFalse(filterExited).Some?
  }

  lemma FirstHasThread(g: Graph, demuxExited: seq<bool>, filterExited: seq<bool>)
    requires |demuxExited| == |g.demux| && |filterExited| == |g.filters|
    ensures GoesOn(g, FirstLive(demuxExited, filterExited)) <==> FirstCanRun(g, demuxExited, filterExited)
  {
    var d, f := FirstFalse(demuxExited), FirstFalse(filterExited);
    if d.Some? {
      assert OnDemux(d.value) in FirstLive(demuxExited, filterExited);
    } else if f.Some? {
      assert OnFilter(f.value) in FirstLive(demuxExited, filterExited);
    }
  }

  /** The seeds and what they bring are none exactly when nothing asks, and all of them
      have threads. */
  lemma CoreIsAsked(g: Graph, best: seq<nat>, asked: seq<Node>, core: set<Waiter>)
    requires Schedulable(g) && BestOk(g, best) && AllGrounded(g, asked)
    requires IsClosure(g, best, Seeds(g, best, asked), core)
    ensures AllHaveThreads(g, core) && (core == {} <==> asked == [])
  {
    forall n | n in asked ensures HasThread(g, Resolve(g, best, n)) {
      AwaitedHasThread(g, best, n);
    }
    ClosureHasThreads(g, best, Seeds(g, best, asked), core);
    if asked == [] {
      assert IsClosed(g, best, {});
    } else {
      assert Resolve(g, best, asked[0]) in core;
    }
  }

  /** No stall, exactly: after an update nothing goes on precisely when nothing asks and the
      first task that has not exited, if there is one, has no thread. While some stream is
      open something asks. */
  lemma NoStall(g: Graph, best: seq<nat>, mux: seq<seq<MuxStream>>, dts: Option<int>,
                ins: seq<seq<FilterIn>>, demuxExited: seq<bool>, filterExited: seq<bool>,
                core: set<Waiter>, running: set<Waiter>)
    requires Schedulable(g) && BestOk(g, best) && MuxShape(g, mux) && InputShape(g, ins)
    requires |demuxExited| == |g.demux| && |filterExited| == |g.filters|
    requires Decided(g, best, mux, dts, ins, demuxExited, filterExited, core, running)
    ensures !GoesOn(g, running) <==>
            Asked(g, mux, dts, ins) == [] && !FirstCanRun(g, demuxExited, filterExited)
    ensures AnyOpen(mux) ==> Asked(g, mux, dts, ins) != []
  {
    CoreIsAsked(g, best, Asked(g, mux, dts, ins), core);
    FirstHasThread(g, demuxExited, filterExited);
    EligibleExactly(mux, dts);
    if i, j :| 0 <= i < |mux| && 0 <= j < |mux[i]| && Eligible(mux[i][j], dts) {
      EligibleRuns(g, best, mux, dts, ins, core, i, j);
    }
    if core != {} {
      var w :| w in core;
      assert w in running && HasThread(g, w);
    }
  }

  /** An update that leaves every task held finds every stream finished and every task
      exited. */
  lemma AllHeldMeansDone(g: Graph, best: seq<nat>, mux: seq<seq<MuxStream>>, dts: Option<int>,
                         ins: seq<seq<FilterIn>>, demuxExited: seq<bool>, filterExited: seq<bool>,
                         core: set<Waiter>)
    requires Schedulable(g) && BestOk(g, best) && MuxShape(g, mux) && InputShape(g, ins)
    requires |demuxExited| == |g.demux| && |filterExited| == |g.filters|
    requires Decided(g, best, mux, dts, ins, demuxExited, filterExited, core, {})
    ensures !AnyOpen(mux)
    ensures forall d | 0 <= d < |demuxExited| :: demuxExited[d]
    ensures forall f | 0 <= f < |filterExited| :: filterExited[f]
  {
    NoStall(g, best, mux, dts, ins, demuxExited, filterExited, core, {});
    EligibleExactly(mux, dts);
    assert FirstLive(demuxExited, filterExited) == {};
  }

  // ---- An input that is not used ----

  /** Two demuxers: no stream of the first is used, the only one of the second is copied. */
  const UNUSED_INPUT := Graph([[], [[Node(MUX, 0, 0)]]], [], [], [], [[Node(DEMUX, 1, 0)]])

  lemma UnusedInputIsAccepted()
    ensures Schedulable(UNUSED_INPUT)
  {
    var g := UNUSED_INPUT;
    assert forall n :: IsSource(g, n) ==> n == Node(DEMUX, 1, 0);
    assert SinksOf(g, Node(DEMUX, 1, 0)) == [Node(MUX, 0, 0)];
    assert forall n :: IsSink(g, n) ==> n == Node(MUX, 0, 0);
  }

  /** When the copied stream is finished, an update releases the demuxer that has no thread,
      and holds the other, which has not exited. */
  lemma UnusedInputStalls()
    ensures Schedulable(UNUSED_INPUT) && MuxShape(UNUSED_INPUT, [[MuxStream(Some(0), true)]])
    ensures Decided(UNUSED_INPUT, [], [[MuxStream(Some(0), true)]], None, [], [false, false], [], {}, {OnDemux(0)})
    ensures !GoesOn(UNUSED_INPUT, {OnDemux(0)})
  {
    var mux := [[MuxStream(Some(0), true)]];
    UnusedInputIsAccepted();
    NobodyAsks(mux);
  }

  lemma NobodyAsks(mux: seq<seq<MuxStream>>)
    requires mux == [[MuxStream(Some(0), true)]]
    ensures MuxShape(UNUSED_INPUT, mux) && InputShape(UNUSED_INPUT, [])
    ensures Asked(UNUSED_INPUT, mux, None, []) == [] && !AnyEligible(mux, None)
  {
    var asked := Asked(UNUSED_INPUT, mux, None, []);
    if asked != [] {
      AskedAre(UNUSED_INPUT, mux, None, [], asked[0]);
    }
  }
}
