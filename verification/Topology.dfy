/** The transcoding graph of the scheduler: demuxers, decoders, filtergraphs,
    encoders and muxers, joined by links from sources to sinks. */
module Topology {

  datatype NodeType = NONE | DEMUX | MUX | DEC | ENC | FILTER_IN | FILTER_OUT

  /** One end of a link. `stream` is the stream of a demuxer or muxer, the output
      of a decoder used as a source, or the pad of a filtergraph; 0 otherwise. */
  datatype Node = Node(kind: NodeType, idx: nat, stream: nat)

  datatype Decoder = Decoder(src: Node, outputs: seq<seq<Node>>)
  datatype Encoder = Encoder(src: Node, dst: seq<Node>)
  datatype FilterGraph = FilterGraph(inputs: seq<Node>, outputs: seq<Node>)

  /** demux[i][j] lists the sinks of stream j of demuxer i; mux[i][j] is the
      source of stream j of muxer i. */
  datatype Graph = Graph(
    demux: seq<seq<seq<Node>>>,
    dec: seq<Decoder>,
    enc: seq<Encoder>,
    filters: seq<FilterGraph>,
    mux: seq<seq<Node>>)

  predicate IsSource(g: Graph, n: Node) {
    match n.kind
    case DEMUX => n.idx < |g.demux| && n.stream < |g.demux[n.idx]|
    case DEC => n.idx < |g.dec| && n.stream < |g.dec[n.idx].outputs|
    case ENC => n.idx < |g.enc| && n.stream == 0
    case FILTER_OUT => n.idx < |g.filters| && n.stream < |g.filters[n.idx].outputs|
    case _ => false
  }

  predicate IsSink(g: Graph, n: Node) {
    match n.kind
    case MUX => n.idx < |g.mux| && n.stream < |g.mux[n.idx]|
    case DEC => n.idx < |g.dec| && n.stream == 0
    case ENC => n.idx < |g.enc| && n.stream == 0
    case FILTER_IN => n.idx < |g.filters| && n.stream < |g.filters[n.idx].inputs|
    case _ => false
  }

  /** Which kinds of sink each kind of source may feed. */
  predicate MayFeed(src: NodeType, dst: NodeType) {
    match src
    case DEMUX => dst == DEC || dst == MUX
    case DEC => dst == FILTER_IN || dst == ENC
    case FILTER_OUT => dst == ENC || dst == FILTER_IN
    case ENC => dst == MUX || dst == DEC
    case _ => false
  }

  function SourceOf(g: Graph, sink: Node): Node
    requires IsSink(g, sink)
  {
    match sink.kind
    case MUX => g.mux[sink.idx][sink.stream]
    case DEC => g.dec[sink.idx].src
    case ENC => g.enc[sink.idx].src
    case FILTER_IN => g.filters[sink.idx].inputs[sink.stream]
  }

  function SinksOf(g: Graph, src: Node): seq<Node>
    requires IsSource(g, src)
  {
    match src.kind
    case DEMUX => g.demux[src.idx][src.stream]
    case DEC => g.dec[src.idx].outputs[src.stream]
    case ENC => g.enc[src.idx].dst
    case FILTER_OUT =>
      var d := g.filters[src.idx].outputs[src.stream];
      if d.kind == NONE then [] else [d]
  }

  /** A sink that has a source is listed by it. */
  ghost predicate SinkLinked(g: Graph, sink: Node) {
    IsSink(g, sink) && SourceOf(g, sink).kind != NONE ==>
      && IsSource(g, SourceOf(g, sink))
      && MayFeed(SourceOf(g, sink).kind, sink.kind)
      && sink in SinksOf(g, SourceOf(g, sink))
  }

  /** A source lists sinks of which it is the source, each once. */
  ghost predicate SourceLinked(g: Graph, src: Node) {
    IsSource(g, src) ==>
      && Distinct(SinksOf(g, src))
      && forall k | 0 <= k < |SinksOf(g, src)| ::
           IsSink(g, SinksOf(g, src)[k]) && SourceOf(g, SinksOf(g, src)[k]) == src
  }

  /** Links recorded at sinks and links recorded at sources are inverse to each
      other, and no source lists a sink twice. */
  ghost predicate Linked(g: Graph) {
    (forall n :: SinkLinked(g, n)) && (forall n :: SourceLinked(g, n))
  }

  ghost predicate Distinct<T>(s: seq<T>) {
    forall a, b | 0 <= a < b < |s| :: s[a] != s[b]
  }

  predicate SinkJoined(g: Graph, n: Node) {
    IsSink(g, n) ==> SourceOf(g, n).kind != NONE
  }

  predicate SourceJoined(g: Graph, n: Node) {
    IsSource(g, n) ==> SinksOf(g, n) != []
  }

  /** Every sink has a source and every source has a sink. */
  ghost predicate FullyConnected(g: Graph) {
    (forall n :: SinkJoined(g, n)) && (forall n :: SourceJoined(g, n))
  }

  ghost predicate Wired(g: Graph) {
    Linked(g) && FullyConnected(g)
  }

  // ---- Upstream walks through codecs ----

  predicate IsCodec(n: Node) {
    n.kind == DEC || n.kind == ENC
  }

  /** The source feeding the codec that `n` comes out of. */
  function Up(g: Graph, n: Node): Node
    requires IsSource(g, n) && IsCodec(n)
  {
    if n.kind == DEC then g.dec[n.idx].src else g.enc[n.idx].src
  }

  lemma UpIsSource(g: Graph, n: Node)
    requires Wired(g) && IsSource(g, n) && IsCodec(n)
    ensures IsSource(g, Up(g, n)) && n.(stream := 0) in SinksOf(g, Up(g, n))
  {
    var sink := n.(stream := 0);
    assert SinkLinked(g, sink) && SinkJoined(g, sink);
  }

  /** At most `k` steps up from `n` lead to a demuxer or a filtergraph. */
  ghost predicate Resolves(g: Graph, n: Node, k: nat)
    requires Wired(g) && IsSource(g, n)
    decreases k
  {
    !IsCodec(n) || (k > 0 && (UpIsSource(g, n); Resolves(g, Up(g, n), k - 1)))
  }

  function NbCodecs(g: Graph): nat {
    |g.dec| + |g.enc|
  }

  /** The walk up through codecs from `n` ends; EndsIff says it in terms of loops. */
  ghost predicate Ends(g: Graph, n: Node)
    requires Wired(g) && IsSource(g, n)
  {
    Resolves(g, n, NbCodecs(g))
  }

  /** No decoders and encoders feed each other in a closed loop; see CodecLoopIff. */
  ghost predicate NoCodecLoop(g: Graph)
    requires Wired(g)
  {
    forall n {:trigger Ends(g, n)} | IsSource(g, n) :: Ends(g, n)
  }

  predicate FeedsFilter(g: Graph, n: Node) {
    exists f, j | 0 <= f < |g.filters| && 0 <= j < |g.filters[f].inputs| :: g.filters[f].inputs[j] == n
  }

  /** The walks that the search for cycles makes, up from the inputs of filtergraphs, end. */
  ghost predicate FiltersEnd(g: Graph)
    requires Wired(g)
  {
    forall n {:trigger Ends(g, n)} | IsSource(g, n) && FeedsFilter(g, n) :: Ends(g, n)
  }

  predicate FeedsMux(g: Graph, n: Node) {
    exists i, j | 0 <= i < |g.mux| && 0 <= j < |g.mux[i]| :: g.mux[i][j] == n
  }

  /** The walks that an update makes, up from the streams of muxers, end. */
  ghost predicate MuxesEnd(g: Graph)
    requires Wired(g)
  {
    forall n {:trigger Ends(g, n)} | IsSource(g, n) && FeedsMux(g, n) :: Ends(g, n)
  }

  /** A source above which a demuxer stream or a filtergraph output is found. */
  ghost predicate IsGrounded(g: Graph, n: Node)
    requires Wired(g)
  {
    IsSource(g, n) && Ends(g, n)
  }

  ghost function UpDepth(g: Graph, n: Node, k: nat): (d: nat)
    requires Wired(g) && IsSource(g, n) && Resolves(g, n, k)
    ensures d <= k
    decreases k
  {
    if !IsCodec(n) then 0 else ResolvesUp(g, n, k); 1 + UpDepth(g, Up(g, n), k - 1)
  }

  lemma ResolvesUp(g: Graph, n: Node, k: nat)
    requires Wired(g) && IsSource(g, n) && IsCodec(n) && Resolves(g, n, k)
    ensures k > 0 && IsSource(g, Up(g, n)) && Resolves(g, Up(g, n), k - 1)
  {
    UpIsSource(g, n);
  }

  lemma {:induction false} UpDepthFuel(g: Graph, n: Node, k: nat, m: nat)
    requires Wired(g) && IsSource(g, n) && Resolves(g, n, k) && k <= m
    ensures Resolves(g, n, m) && UpDepth(g, n, m) == UpDepth(g, n, k)
    decreases k
  {
    if IsCodec(n) {
      ResolvesUp(g, n, k);
      UpDepthFuel(g, Up(g, n), k - 1, m - 1);
    }
  }

  /** Number of codecs between `n` and the demuxer or filtergraph above it. */
  ghost function Depth(g: Graph, n: Node): (d: nat)
    requires Wired(g) && IsSource(g, n) && Ends(g, n)
    ensures d <= NbCodecs(g)
  {
    UpDepth(g, n, NbCodecs(g))
  }

  lemma DepthUp(g: Graph, n: Node)
    requires Wired(g) && IsSource(g, n) && Ends(g, n) && IsCodec(n)
    ensures IsSource(g, Up(g, n)) && Ends(g, Up(g, n)) && Depth(g, n) == 1 + Depth(g, Up(g, n))
  {
    ResolvesUp(g, n, NbCodecs(g));
    UpDepthFuel(g, Up(g, n), NbCodecs(g) - 1, NbCodecs(g));
  }

  /** The node `k` steps above `n`, all the nodes on the way being codecs. */
  ghost predicate Climbs(g: Graph, n: Node, k: nat, top: Node)
    requires Wired(g) && IsSource(g, n)
    decreases k
  {
    if k == 0 then n == top
    else IsCodec(n) && (UpIsSource(g, n); Climbs(g, Up(g, n), k - 1, top))
  }

  /** The demuxer stream or filtergraph output that `n` ultimately comes from. */
  ghost function Origin(g: Graph, n: Node): (r: Node)
    requires Wired(g) && IsSource(g, n) && Ends(g, n)
    ensures IsSource(g, r) && (r.kind == DEMUX || r.kind == FILTER_OUT)
    ensures Climbs(g, n, Depth(g, n), r)
    decreases Depth(g, n)
  {
    if !IsCodec(n) then n else DepthUp(g, n); Origin(g, Up(g, n))
  }

  // ---- Codec loops ----

  predicate SameCodec(n: Node, m: Node) {
    IsCodec(n) && m.kind == n.kind && m.idx == n.idx
  }

  /** The codec `n` comes out of is fed, through codecs alone, by its own output. */
  ghost predicate InLoop(g: Graph, n: Node)
    requires Wired(g) && IsSource(g, n)
  {
    exists m, k: nat | k > 0 && IsSource(g, m) && SameCodec(n, m) :: Climbs(g, n, k, m)
  }

  ghost predicate HasCodecLoop(g: Graph)
    requires Wired(g)
  {
    exists n | IsSource(g, n) :: InLoop(g, n)
  }

  /** Going up from `n` through codecs leads into a loop. */
  ghost predicate LoopAbove(g: Graph, n: Node)
    requires Wired(g) && IsSource(g, n)
  {
    exists m, k: nat | IsSource(g, m) && Climbs(g, n, k, m) :: InLoop(g, m)
  }

  function CodecId(g: Graph, n: Node): (id: nat)
    requires IsSource(g, n) && IsCodec(n)
    ensures id < NbCodecs(g)
  {
    if n.kind == DEC then n.idx else |g.dec| + n.idx
  }

  /** The codecs met on the first `k` steps above `n`. */
  ghost function Ascent(g: Graph, n: Node, k: nat): (s: seq<Node>)
    requires Wired(g) && IsSource(g, n) && !Resolves(g, n, k)
    ensures |s| == k + 1 && s[0] == n
    decreases k
  {
    if k == 0 then [n] else ClimbsOn(g, n, k); [n] + Ascent(g, Up(g, n), k - 1)
  }

  lemma ClimbsOn(g: Graph, n: Node, k: nat)
    requires Wired(g) && IsSource(g, n) && !Resolves(g, n, k)
    ensures IsCodec(n) && IsSource(g, Up(g, n)) && (k > 0 ==> !Resolves(g, Up(g, n), k - 1))
  {
    UpIsSource(g, n);
  }

  lemma {:induction false} AscentIsUpward(g: Graph, n: Node, k: nat, i: nat)
    requires Wired(g) && IsSource(g, n) && !Resolves(g, n, k) && i <= k
    ensures var s := Ascent(g, n, k);
            IsSource(g, s[i]) && IsCodec(s[i]) && (i < k ==> s[i + 1] == Up(g, s[i]))
    decreases k
  {
    ClimbsOn(g, n, k);
    if i > 0 {
      AscentIsUpward(g, Up(g, n), k - 1, i - 1);
    }
  }

  lemma {:induction false} AscentClimbs(g: Graph, s: seq<Node>, a: nat, b: nat)
    requires Wired(g) && a <= b < |s|
    requires forall i | 0 <= i < |s| :: IsSource(g, s[i]) && IsCodec(s[i])
    requires forall i | 0 <= i < |s| - 1 :: s[i + 1] == Up(g, s[i])
    ensures Climbs(g, s[a], b - a, s[b])
    decreases b - a
  {
    if a < b {
      AscentClimbs(g, s, a + 1, b);
    }
  }

  lemma {:induction false} ClimbKeepsDepth(g: Graph, n: Node, k: nat, top: Node)
    requires Wired(g) && IsSource(g, n) && Ends(g, n) && IsSource(g, top)
    requires Climbs(g, n, k, top)
    ensures Ends(g, top) && Depth(g, n) == k + Depth(g, top)
    decreases k
  {
    if k > 0 {
      DepthUp(g, n);
      ClimbKeepsDepth(g, Up(g, n), k - 1, top);
    }
  }

  lemma SameCodecSameDepth(g: Graph, n: Node, m: Node)
    requires Wired(g) && IsSource(g, n) && IsSource(g, m) && Ends(g, n) && Ends(g, m) && SameCodec(n, m)
    ensures Depth(g, n) == Depth(g, m)
  {
    DepthUp(g, n);
    DepthUp(g, m);
  }

  /** A walk that ends does not start in a loop. */
  lemma EndsOutsideLoops(g: Graph, n: Node)
    requires Wired(g) && IsSource(g, n) && Ends(g, n)
    ensures !InLoop(g, n)
  {
    forall m, k: nat | IsSource(g, m) && SameCodec(n, m) && Climbs(g, n, k, m) ensures k == 0 {
      ClimbKeepsDepth(g, n, k, m);
      SameCodecSameDepth(g, n, m);
    }
  }

  lemma LongAscentLoops(g: Graph, n: Node)
    requires Wired(g) && IsSource(g, n) && !Ends(g, n)
    ensures LoopAbove(g, n)
  {
    var s := Ascent(g, n, NbCodecs(g));
    forall i: nat | i < |s|
      ensures IsSource(g, s[i]) && IsCodec(s[i]) && (i + 1 < |s| ==> s[i + 1] == Up(g, s[i]))
    {
      AscentIsUpward(g, n, NbCodecs(g), i);
    }
    var ids := seq(|s|, i requires 0 <= i < |s| => CodecId(g, s[i]));
    if Distinct(ids) {
      Pigeonhole(ids, NbCodecs(g));
    }
    var a, b :| 0 <= a < b < |ids| && ids[a] == ids[b];
    SameId(g, s[a], s[b]);
    AscentClimbs(g, s, a, b);
    AscentClimbs(g, s, 0, a);
    assert InLoop(g, s[a]);
  }

  lemma SameId(g: Graph, n: Node, m: Node)
    requires IsSource(g, n) && IsCodec(n) && IsSource(g, m) && IsCodec(m)
    requires CodecId(g, n) == CodecId(g, m)
    ensures SameCodec(n, m)
  {
  }

  /** The walk up from a source ends exactly when it does not lead into a loop of codecs. */
  lemma EndsIff(g: Graph, n: Node)
    requires Wired(g) && IsSource(g, n)
    ensures Ends(g, n) <==> !LoopAbove(g, n)
  {
    if Ends(g, n) {
      forall m, k: nat | IsSource(g, m) && Climbs(g, n, k, m) ensures !InLoop(g, m) {
        ClimbKeepsDepth(g, n, k, m);
        EndsOutsideLoops(g, m);
      }
    } else {
      LongAscentLoops(g, n);
    }
  }

  /** A loop above a codec's output is above what feeds the codec. */
  lemma LoopAboveUp(g: Graph, n: Node)
    requires Wired(g) && IsSource(g, n) && IsCodec(n) && LoopAbove(g, n)
    ensures IsSource(g, Up(g, n)) && LoopAbove(g, Up(g, n))
  {
    UpIsSource(g, n);
    var m, k: nat :| IsSource(g, m) && Climbs(g, n, k, m) && InLoop(g, m);
    if k > 0 {
      assert Climbs(g, Up(g, n), k - 1, m);
    } else {
      var m', k': nat :| k' > 0 && IsSource(g, m') && SameCodec(n, m') && Climbs(g, n, k', m');
      assert Climbs(g, m', k', m') && Climbs(g, Up(g, n), k' - 1, m');
    }
  }

  /** Where the walk from what feeds a codec ends, so does that from the codec's output. */
  lemma EndsBelow(g: Graph, n: Node)
    requires Wired(g) && IsSource(g, n) && IsCodec(n) && IsSource(g, Up(g, n)) && Ends(g, Up(g, n))
    ensures Ends(g, n)
  {
    EndsIff(g, n);
    EndsIff(g, Up(g, n));
    if LoopAbove(g, n) {
      LoopAboveUp(g, n);
    }
  }

  /** The walks that the search for cycles makes end exactly when none of the sources that
      feed filtergraphs has a loop of codecs above it; those of an update, when none of the
      sources of muxed streams has either. */
  lemma WalksEndIff(g: Graph)
    requires Wired(g)
    ensures FiltersEnd(g) <==> forall n | IsSource(g, n) && FeedsFilter(g, n) :: !LoopAbove(g, n)
    ensures MuxesEnd(g) <==> forall n | IsSource(g, n) && FeedsMux(g, n) :: !LoopAbove(g, n)
  {
    forall n | IsSource(g, n) ensures Ends(g, n) <==> !LoopAbove(g, n) {
      EndsIff(g, n);
    }
  }

  /** The walk up ends from everywhere exactly when no codecs form a loop. */
  lemma CodecLoopIff(g: Graph)
    requires Wired(g)
    ensures NoCodecLoop(g) <==> !HasCodecLoop(g)
  {
    if NoCodecLoop(g) {
      forall n | IsSource(g, n) ensures !InLoop(g, n) {
        EndsOutsideLoops(g, n);
      }
    } else {
      var n :| IsSource(g, n) && !Ends(g, n);
      LongAscentLoops(g, n);
    }
  }

  // ---- A loop, harmless and not ----

  /** A decoder and an encoder that feed each other; with `filtered`, the decoder feeds a
      filtergraph as well. */
  function Loop(filtered: bool): Graph {
    var sinks := [Node(ENC, 0, 0)] + if filtered then [Node(FILTER_IN, 0, 0)] else [];
    var filters := if filtered then [FilterGraph([Node(DEC, 0, 0)], [])] else [];
    Graph([], [Decoder(Node(ENC, 0, 0), [sinks])], [Encoder(Node(DEC, 0, 0), [Node(DEC, 0, 0)])], filters, [])
  }

  lemma LoopNodes(filtered: bool, n: Node)
    ensures IsSource(Loop(filtered), n) ==> n == Node(DEC, 0, 0) || n == Node(ENC, 0, 0)
    ensures IsSink(Loop(filtered), n) ==>
              n == Node(DEC, 0, 0) || n == Node(ENC, 0, 0) || (filtered && n == Node(FILTER_IN, 0, 0))
  {
  }

  lemma LoopSinks(filtered: bool)
    ensures IsSource(Loop(filtered), Node(DEC, 0, 0)) && IsSource(Loop(filtered), Node(ENC, 0, 0))
    ensures SinksOf(Loop(filtered), Node(ENC, 0, 0)) == [Node(DEC, 0, 0)]
    ensures SinksOf(Loop(filtered), Node(DEC, 0, 0)) ==
            if filtered then [Node(ENC, 0, 0), Node(FILTER_IN, 0, 0)] else [Node(ENC, 0, 0)]
  {
  }

  lemma LoopIsWired(filtered: bool)
    ensures Wired(Loop(filtered))
  {
    var g := Loop(filtered);
    LoopSinks(filtered);
    forall n ensures SinkLinked(g, n) && SinkJoined(g, n) && SourceLinked(g, n) && SourceJoined(g, n) {
      LoopNodes(filtered, n);
    }
  }

  lemma LoopIsLoop(filtered: bool)
    requires Wired(Loop(filtered))
    ensures IsSource(Loop(filtered), Node(DEC, 0, 0)) && InLoop(Loop(filtered), Node(DEC, 0, 0))
  {
    var g, d, e := Loop(filtered), Node(DEC, 0, 0), Node(ENC, 0, 0);
    UpIsSource(g, d);
    UpIsSource(g, e);
    assert Climbs(g, d, 0, d) && Climbs(g, e, 1, d) && Climbs(g, d, 2, d);
  }

  /** A loop of codecs does no harm to the search when nothing leads up to it from a
      filtergraph, and makes it go on for ever when something does. */
  lemma LoopHarmsExactlyWhenFiltered(filtered: bool)
    ensures Wired(Loop(filtered)) && HasCodecLoop(Loop(filtered))
    ensures FiltersEnd(Loop(filtered)) <==> !filtered
  {
    var g, d := Loop(filtered), Node(DEC, 0, 0);
    LoopIsWired(filtered);
    LoopIsLoop(filtered);
    if filtered {
      assert g.filters[0].inputs[0] == d;
      if Ends(g, d) {
        EndsOutsideLoops(g, d);
      }
    }
  }

  /** Distinct naturals below `n` are at most `n` many. */
  lemma {:induction false} Pigeonhole(s: seq<nat>, n: nat)
    requires Distinct(s) && forall i | 0 <= i < |s| :: s[i] < n
    ensures |s| <= n
    decreases n
  {
    if s != [] {
      assert s[0] < n;
      if i :| 0 <= i < |s| && s[i] == n - 1 {
        Pigeonhole(s[..i] + s[i + 1..], n - 1);
      } else {
        Pigeonhole(s, n - 1);
      }
    }
  }
}
