/** Building the transcoding graph: linking sources to sinks, and the checks made
    before the tasks are started. */
module Connect {
  import opened Topology
  import opened Digraph
  import opened Acyclic

  /** A link that was not made yet. */
  const UNCONNECTED := Node(NONE, 0, 0)

  function Pads(kind: NodeType, idx: nat, n: nat): set<Node> {
    set j: nat | j < n :: Node(kind, idx, j)
  }

  /** `h` is `g` with some sources and sinks more, none of them linked. */
  ghost predicate Adds(g: Graph, sources: set<Node>, sinks: set<Node>, h: Graph) {
    AddsSources(g, sources, h) && AddsSinks(g, sinks, h)
  }

  ghost predicate AddsSources(g: Graph, sources: set<Node>, h: Graph) {
    && (forall n :: IsSource(h, n) <==> IsSource(g, n) || n in sources)
    && (forall n | IsSource(h, n) :: SinksOf(h, n) == if IsSource(g, n) then SinksOf(g, n) else [])
  }

  ghost predicate AddsSinks(g: Graph, sinks: set<Node>, h: Graph) {
    && (forall n :: IsSink(h, n) <==> IsSink(g, n) || n in sinks)
    && (forall n | IsSink(h, n) :: SourceOf(h, n) == if IsSink(g, n) then SourceOf(g, n) else UNCONNECTED)
  }

  function WithFilter(g: Graph, nbInputs: nat, nbOutputs: nat): Graph {
    g.(filters := g.filters + [FilterGraph(seq(nbInputs, _ => UNCONNECTED), seq(nbOutputs, _ => UNCONNECTED))])
  }

  lemma FilterAddsSources(g: Graph, nbInputs: nat, nbOutputs: nat)
    ensures AddsSources(g, Pads(FILTER_OUT, |g.filters|, nbOutputs), WithFilter(g, nbInputs, nbOutputs))
  {
  }

  lemma FilterAddsSinks(g: Graph, nbInputs: nat, nbOutputs: nat)
    ensures AddsSinks(g, Pads(FILTER_IN, |g.filters|, nbInputs), WithFilter(g, nbInputs, nbOutputs))
  {
  }

  class Links {
    /** Per demuxer and stream, its sinks. */
    var demux: seq<seq<seq<Node>>>
    var dec: seq<Decoder>
    var enc: seq<Encoder>
    var filters: seq<FilterGraph>
    /** Per muxer and stream, its source. */
    var mux: seq<seq<Node>>

    ghost function G(): Graph
      reads this
    {
      Graph.Graph(demux, dec, enc, filters, mux)
    }

    constructor ()
      ensures Bare(G()) && Linked(G())
    {
      demux, dec, enc, filters, mux := [], [], [], [], [];
    }

    method AddDemux() returns (idx: nat)
      modifies this
      ensures idx == |old(demux)| && Adds(old(G()), {}, {}, G())
    {
      idx := |demux|;
      demux := demux + [[]];
    }

    method AddDemuxStream(d: nat) returns (stream: nat)
      requires d < |demux|
      modifies this
      ensures stream == |old(demux[d])| && Adds(old(G()), {Node(DEMUX, d, stream)}, {}, G())
    {
      stream := |demux[d]|;
      demux := demux[d := demux[d] + [[]]];
    }

    /** A decoder comes with one output. */
    method AddDec() returns (idx: nat)
      modifies this
      ensures idx == |old(dec)| && Adds(old(G()), {Node(DEC, idx, 0)}, {Node(DEC, idx, 0)}, G())
    {
      idx := |dec|;
      dec := dec + [Decoder(UNCONNECTED, [[]])];
    }

    method AddDecOutput(i: nat) returns (output: nat)
      requires i < |dec|
      modifies this
      ensures output == |old(dec[i].outputs)| && Adds(old(G()), {Node(DEC, i, output)}, {}, G())
    {
      output := |dec[i].outputs|;
      dec := dec[i := dec[i].(outputs := dec[i].outputs + [[]])];
    }

    method AddEnc() returns (idx: nat)
      modifies this
      ensures idx == |old(enc)| && Adds(old(G()), {Node(ENC, idx, 0)}, {Node(ENC, idx, 0)}, G())
    {
      idx := |enc|;
      enc := enc + [Encoder(UNCONNECTED, [])];
    }

    method AddFilterGraph(nbInputs: nat, nbOutputs: nat) returns (idx: nat)
      modifies this
      ensures idx == |old(filters)|
      ensures Adds(old(G()), Pads(FILTER_OUT, idx, nbOutputs), Pads(FILTER_IN, idx, nbInputs), G())
    {
      FilterAddsSources(G(), nbInputs, nbOutputs);
      FilterAddsSinks(G(), nbInputs, nbOutputs);
      idx := |filters|;
      filters := filters + [FilterGraph(seq(nbInputs, _ => UNCONNECTED), seq(nbOutputs, _ => UNCONNECTED))];
    }

    method AddMux() returns (idx: nat)
      modifies this
      ensures idx == |old(mux)| && Adds(old(G()), {}, {}, G())
    {
      idx := |mux|;
      mux := mux + [[]];
    }

    method AddMuxStream(i: nat) returns (stream: nat)
      requires i < |mux|
      modifies this
      ensures stream == |old(mux[i])| && Adds(old(G()), {}, {Node(MUX, i, stream)}, G())
    {
      stream := |mux[i]|;
      mux := mux[i := mux[i] + [UNCONNECTED]];
    }

    /** What the assertions of sch_connect demand: both ends exist, their kinds go
        together, the sink is free, and so is a filtergraph output. */
    ghost predicate MayConnect(src: Node, dst: Node)
      reads this
    {
      IsFree(G(), src, dst)
    }

    method SchConnect(src: Node, dst: Node)
      requires MayConnect(src, dst)
      modifies this
      ensures Joined(old(G()), src, dst, G())
      ensures old(Linked(G())) ==> Linked(G())
    {
      AppendSink(src, dst);
      SetSource(dst, src);
      if old(Linked(G())) {
        JoinedIsLinked(old(G()), src, dst, G());
      }
    }

    method AppendSink(src: Node, dst: Node)
      requires IsSource(G(), src) && dst.kind != NONE
      requires src.kind == FILTER_OUT ==> SinksOf(G(), src) == []
      modifies this
      ensures SameNodes(old(G()), G()) && SinksGrow(old(G()), src, dst, G()) && SourcesStay(old(G()), G())
    {
      if src.kind == DEMUX {
        AppendDemuxSink(src, dst);
      } else if src.kind == DEC {
        AppendDecSink(src, dst);
      } else if src.kind == FILTER_OUT {
        AppendFilterSink(src, dst);
      } else {
        AppendEncSink(src, dst);
      }
    }

    method AppendDemuxSink(src: Node, dst: Node)
      requires IsSource(G(), src) && src.kind == DEMUX
      modifies this
      ensures SameNodes(old(G()), G()) && SinksGrow(old(G()), src, dst, G()) && SourcesStay(old(G()), G())
    {
      demux := demux[src.idx := demux[src.idx][src.stream := demux[src.idx][src.stream] + [dst]]];
    }

    method AppendDecSink(src: Node, dst: Node)
      requires IsSource(G(), src) && src.kind == DEC
      modifies this
      ensures SameNodes(old(G()), G()) && SinksGrow(old(G()), src, dst, G()) && SourcesStay(old(G()), G())
    {
      var o := dec[src.idx].outputs;
      dec := dec[src.idx := dec[src.idx].(outputs := o[src.stream := o[src.stream] + [dst]])];
    }

    method AppendFilterSink(src: Node, dst: Node)
      requires IsSource(G(), src) && src.kind == FILTER_OUT && SinksOf(G(), src) == [] && dst.kind != NONE
      modifies this
      ensures SameNodes(old(G()), G()) && SinksGrow(old(G()), src, dst, G()) && SourcesStay(old(G()), G())
    {
      FilterSinkAppended(G(), src, dst);
      var o := filters[src.idx].outputs;
      filters := filters[src.idx := filters[src.idx].(outputs := o[src.stream := dst])];
    }

    method AppendEncSink(src: Node, dst: Node)
      requires IsSource(G(), src) && src.kind == ENC
      modifies this
      ensures SameNodes(old(G()), G()) && SinksGrow(old(G()), src, dst, G()) && SourcesStay(old(G()), G())
    {
      enc := enc[src.idx := enc[src.idx].(dst := enc[src.idx].dst + [dst])];
    }

    method SetSource(dst: Node, src: Node)
      requires IsSink(G(), dst)
      modifies this
      ensures SameNodes(old(G()), G()) && SourceChanges(old(G()), src, dst, G()) && SinksStay(old(G()), G())
    {
      if dst.kind == DEC {
        SetDecSource(dst, src);
      } else if dst.kind == MUX {
        SetMuxSource(dst, src);
      } else if dst.kind == FILTER_IN {
        SetFilterSource(dst, src);
      } else {
        SetEncSource(dst, src);
      }
    }

    method SetDecSource(dst: Node, src: Node)
      requires IsSink(G(), dst) && dst.kind == DEC
      modifies this
      ensures SameNodes(old(G()), G()) && SourceChanges(old(G()), src, dst, G()) && SinksStay(old(G()), G())
    {
      dec := dec[dst.idx := dec[dst.idx].(src := src)];
    }

    method SetMuxSource(dst: Node, src: Node)
      requires IsSink(G(), dst) && dst.kind == MUX
      modifies this
      ensures SameNodes(old(G()), G()) && SourceChanges(old(G()), src, dst, G()) && SinksStay(old(G()), G())
    {
      mux := mux[dst.idx := mux[dst.idx][dst.stream := src]];
    }

    method SetFilterSource(dst: Node, src: Node)
      requires IsSink(G(), dst) && dst.kind == FILTER_IN
      modifies this
      ensures SameNodes(old(G()), G()) && SourceChanges(old(G()), src, dst, G()) && SinksStay(old(G()), G())
    {
      var ins := filters[dst.idx].inputs;
      filters := filters[dst.idx := filters[dst.idx].(inputs := ins[dst.stream := src])];
    }

    method SetEncSource(dst: Node, src: Node)
      requires IsSink(G(), dst) && dst.kind == ENC
      modifies this
      ensures SameNodes(old(G()), G()) && SourceChanges(old(G()), src, dst, G()) && SinksStay(old(G()), G())
    {
      enc := enc[dst.idx := enc[dst.idx].(src := src)];
    }

    // ---- Checks made before starting ----

    method DemuxersConnected() returns (ok: bool)
      ensures ok <==> forall i, j | 0 <= i < |demux| && 0 <= j < |demux[i]| :: demux[i][j] != []
    {
      for i := 0 to |demux|
        invariant forall a, b | 0 <= a < i && 0 <= b < |demux[a]| :: demux[a][b] != []
      {
        for j := 0 to |demux[i]|
          invariant forall b | 0 <= b < j :: demux[i][b] != []
        {
          if |demux[i][j]| == 0 {
            return false;
          }
        }
      }
      return true;
    }

    method DecodersConnected() returns (ok: bool)
      ensures ok <==> forall i | 0 <= i < |dec| ::
        dec[i].src.kind != NONE && forall j | 0 <= j < |dec[i].outputs| :: dec[i].outputs[j] != []
    {
      for i := 0 to |dec|
        invariant forall a | 0 <= a < i ::
          dec[a].src.kind != NONE && forall j | 0 <= j < |dec[a].outputs| :: dec[a].outputs[j] != []
      {
        if dec[i].src.kind == NONE {
          return false;
        }
        for j := 0 to |dec[i].outputs|
          invariant forall b | 0 <= b < j :: dec[i].outputs[b] != []
        {
          if |dec[i].outputs[j]| == 0 {
            return false;
          }
        }
      }
      return true;
    }

    method EncodersConnected() returns (ok: bool)
      ensures ok <==> forall i | 0 <= i < |enc| :: enc[i].src.kind != NONE && enc[i].dst != []
    {
      for i := 0 to |enc|
        invariant forall a | 0 <= a < i :: enc[a].src.kind != NONE && enc[a].dst != []
      {
        if enc[i].src.kind == NONE || |enc[i].dst| == 0 {
          return false;
        }
      }
      return true;
    }

    method MuxersConnected() returns (ok: bool)
      ensures ok <==> forall i, j | 0 <= i < |mux| && 0 <= j < |mux[i]| :: mux[i][j].kind != NONE
    {
      for i := 0 to |mux|
        invariant forall a, b | 0 <= a < i && 0 <= b < |mux[a]| :: mux[a][b].kind != NONE
      {
        for j := 0 to |mux[i]|
          invariant forall b | 0 <= b < j :: mux[i][b].kind != NONE
        {
          if mux[i][j].kind == NONE {
            return false;
          }
        }
      }
      return true;
    }

    method FiltersConnected() returns (ok: bool)
      ensures ok <==> forall i | 0 <= i < |filters| :: PadsConnected(filters[i])
    {
      for i := 0 to |filters|
        invariant forall a | 0 <= a < i :: PadsConnected(filters[a])
      {
        for j := 0 to |filters[i].inputs|
          invariant forall b | 0 <= b < j :: filters[i].inputs[b].kind != NONE
        {
          if filters[i].inputs[j].kind == NONE {
            return false;
          }
        }
        for j := 0 to |filters[i].outputs|
          invariant forall b | 0 <= b < j :: filters[i].outputs[b].kind != NONE
        {
          if filters[i].outputs[j].kind == NONE {
            return false;
          }
        }
      }
      return true;
    }

    method AllConnected() returns (ok: bool)
      ensures ok <==> FullyConnected(G())
    {
      FullyConnectedIff(G());
      ok := DemuxersConnected();
      if !ok { return; }
      ok := DecodersConnected();
      if !ok { return; }
      ok := EncodersConnected();
      if !ok { return; }
      ok := MuxersConnected();
      if !ok { return; }
      ok := FiltersConnected();
    }

    /** Whether the graph is complete and free of cycles. */
    method StartPrepare() returns (ok: bool)
      requires Linked(G()) && (FullyConnected(G()) ==> FiltersEnd(G()))
      ensures ok <==> FullyConnected(G()) && !HasCycle(FeedersOf(G()))
      ensures ok ==> Ready(G()) && IsAcyclic(FeedersOf(G()))
    {
      ok := AllConnected();
      if ok {
        ok := CheckAcyclic(Graph.Graph(demux, dec, enc, filters, mux));
      }
    }
  }

  ghost predicate SameNodes(g: Graph, h: Graph) {
    && (forall n :: IsSource(h, n) <==> IsSource(g, n))
    && (forall n :: IsSink(h, n) <==> IsSink(g, n))
  }

  ghost predicate SinksGrow(g: Graph, src: Node, dst: Node, h: Graph)
    requires SameNodes(g, h)
  {
    forall n | IsSource(g, n) ::
      SinksOf(h, n) == if n == src then SinksOf(g, n) + [dst] else SinksOf(g, n)
  }

  function WithFilterSink(g: Graph, src: Node, dst: Node): Graph
    requires IsSource(g, src) && src.kind == FILTER_OUT
  {
    var f := g.filters[src.idx];
    g.(filters := g.filters[src.idx := f.(outputs := f.outputs[src.stream := dst])])
  }

  lemma FilterSinkAppended(g: Graph, src: Node, dst: Node)
    requires IsSource(g, src) && src.kind == FILTER_OUT && SinksOf(g, src) == [] && dst.kind != NONE
    ensures SameNodes(g, WithFilterSink(g, src, dst)) && SinksGrow(g, src, dst, WithFilterSink(g, src, dst))
    ensures SourcesStay(g, WithFilterSink(g, src, dst))
  {
    FilterSinkFrame(g, src, dst);
  }

  lemma FilterSinkFrame(g: Graph, src: Node, dst: Node)
    requires IsSource(g, src) && src.kind == FILTER_OUT
    ensures SameNodes(g, WithFilterSink(g, src, dst)) && SourcesStay(g, WithFilterSink(g, src, dst))
  {
  }

  ghost predicate SinksStay(g: Graph, h: Graph)
    requires SameNodes(g, h)
  {
    forall n | IsSource(g, n) :: SinksOf(h, n) == SinksOf(g, n)
  }

  ghost predicate SourcesStay(g: Graph, h: Graph)
    requires SameNodes(g, h)
  {
    forall n | IsSink(g, n) :: SourceOf(h, n) == SourceOf(g, n)
  }

  ghost predicate SourceChanges(g: Graph, src: Node, dst: Node, h: Graph)
    requires SameNodes(g, h)
  {
    forall n | IsSink(g, n) :: SourceOf(h, n) == if n == dst then src else SourceOf(g, n)
  }

  /** `h` is `g` with one more link: `dst` goes to the end of the sinks of `src`, and
      `src` becomes the source of `dst`. */
  ghost predicate Joined(g: Graph, src: Node, dst: Node, h: Graph) {
    SameNodes(g, h) && SinksGrow(g, src, dst, h) && SourceChanges(g, src, dst, h)
  }

  ghost predicate IsFree(g: Graph, src: Node, dst: Node) {
    && IsSource(g, src) && IsSink(g, dst) && MayFeed(src.kind, dst.kind)
    && SourceOf(g, dst).kind == NONE
    && (src.kind == FILTER_OUT ==> SinksOf(g, src) == [])
  }

  ghost predicate Bare(g: Graph) {
    && (forall n | IsSink(g, n) :: SourceOf(g, n).kind == NONE)
    && (forall n | IsSource(g, n) :: SinksOf(g, n) == [])
  }

  predicate Lists(g: Graph, src: Node, sink: Node) {
    IsSource(g, src) && sink in SinksOf(g, src)
  }

  lemma ListIsTraced(g: Graph, src: Node, sink: Node)
    requires Linked(g) && Lists(g, src, sink)
    ensures IsSink(g, sink) && SourceOf(g, sink) == src
  {
    assert SourceLinked(g, src);
  }

  lemma FreeIsUnlisted(g: Graph, src: Node, dst: Node)
    requires Linked(g) && IsFree(g, src, dst)
    ensures !Lists(g, src, dst)
  {
    if Lists(g, src, dst) {
      ListIsTraced(g, src, dst);
    }
  }

  lemma JoinedIsLinked(g: Graph, src: Node, dst: Node, h: Graph)
    requires Linked(g) && IsFree(g, src, dst) && Joined(g, src, dst, h)
    ensures Linked(h)
  {
    FreeIsUnlisted(g, src, dst);
    forall n ensures SinkLinked(h, n) && SourceLinked(h, n) {
      assert SinkLinked(g, n) && SourceLinked(g, n);
      if IsSource(g, n) {
        forall k | 0 <= k < |SinksOf(g, n)| ensures SinksOf(g, n)[k] != dst {
          assert SourceOf(g, SinksOf(g, n)[k]) == n;
        }
      }
    }
  }

  lemma AddsIsLinked(g: Graph, sources: set<Node>, sinks: set<Node>, h: Graph)
    requires Linked(g) && Adds(g, sources, sinks, h)
    ensures Linked(h)
  {
    forall n ensures SinkLinked(h, n) && SourceLinked(h, n) {
      assert SinkLinked(g, n) && SourceLinked(g, n);
    }
  }

  /** A step of building the graph: adding nodes, or connecting two. */
  datatype Step = Add(sources: set<Node>, sinks: set<Node>) | Join(src: Node, dst: Node)

  ghost predicate Builds(g: Graph, step: Step, h: Graph) {
    match step
    case Add(sources, sinks) => Adds(g, sources, sinks, h)
    case Join(src, dst) => IsFree(g, src, dst) && Joined(g, src, dst, h)
  }

  /** However nodes are added and connected in turn, starting from a graph without links,
      the links at sources and at sinks are mutually inverse. */
  lemma {:induction false} EveryBuildIsLinked(gs: seq<Graph>, steps: seq<Step>)
    requires |gs| == |steps| + 1 && Bare(gs[0])
    requires forall i | 0 <= i < |steps| :: Builds(gs[i], steps[i], gs[i + 1])
    ensures Linked(gs[|steps|])
    decreases |steps|
  {
    if |steps| > 0 {
      var n := |steps| - 1;
      EveryBuildIsLinked(gs[..n + 1], steps[..n]);
      assert Builds(gs[n], steps[n], gs[n + 1]);
      match steps[n]
      case Add(sources, sinks) => AddsIsLinked(gs[n], sources, sinks, gs[n + 1]);
      case Join(src, dst) => JoinedIsLinked(gs[n], src, dst, gs[n + 1]);
    }
  }

  predicate PadsConnected(f: FilterGraph) {
    && (forall j | 0 <= j < |f.inputs| :: f.inputs[j].kind != NONE)
    && (forall j | 0 <= j < |f.outputs| :: f.outputs[j].kind != NONE)
  }

  lemma FullyConnectedIff(g: Graph)
    ensures FullyConnected(g) <==>
      && (forall i, j | 0 <= i < |g.demux| && 0 <= j < |g.demux[i]| :: g.demux[i][j] != [])
      && (forall i | 0 <= i < |g.dec| ::
            g.dec[i].src.kind != NONE && forall j | 0 <= j < |g.dec[i].outputs| :: g.dec[i].outputs[j] != [])
      && (forall i | 0 <= i < |g.enc| :: g.enc[i].src.kind != NONE && g.enc[i].dst != [])
      && (forall i, j | 0 <= i < |g.mux| && 0 <= j < |g.mux[i]| :: g.mux[i][j].kind != NONE)
      && (forall i | 0 <= i < |g.filters| :: PadsConnected(g.filters[i]))
  {
    if FullyConnected(g) {
      forall i, j | 0 <= i < |g.demux| && 0 <= j < |g.demux[i]| ensures g.demux[i][j] != [] {
        assert SourceJoined(g, Node(DEMUX, i, j));
      }
      forall i | 0 <= i < |g.dec| ensures g.dec[i].src.kind != NONE {
        assert SinkJoined(g, Node(DEC, i, 0));
      }
      forall i, j | 0 <= i < |g.dec| && 0 <= j < |g.dec[i].outputs| ensures g.dec[i].outputs[j] != [] {
        assert SourceJoined(g, Node(DEC, i, j));
      }
      forall i | 0 <= i < |g.enc| ensures g.enc[i].src.kind != NONE && g.enc[i].dst != [] {
        assert SinkJoined(g, Node(ENC, i, 0)) && SourceJoined(g, Node(ENC, i, 0));
      }
      forall i, j | 0 <= i < |g.mux| && 0 <= j < |g.mux[i]| ensures g.mux[i][j].kind != NONE {
        assert SinkJoined(g, Node(MUX, i, j));
      }
      forall i, j | 0 <= i < |g.filters| && 0 <= j < |g.filters[i].inputs|
        ensures g.filters[i].inputs[j].kind != NONE
      {
        assert SinkJoined(g, Node(FILTER_IN, i, j));
      }
      forall i, j | 0 <= i < |g.filters| && 0 <= j < |g.filters[i].outputs|
        ensures g.filters[i].outputs[j].kind != NONE
      {
        assert SourceJoined(g, Node(FILTER_OUT, i, j));
      }
    }
  }

  /** No sink is listed by two sources. */
  lemma OneSourcePerSink(g: Graph, a: Node, b: Node, sink: Node)
    requires Linked(g) && IsSource(g, a) && IsSource(g, b)
    requires sink in SinksOf(g, a) && sink in SinksOf(g, b)
    ensures a == b && IsSink(g, sink) && SourceOf(g, sink) == a
  {
    ListIsTraced(g, a, sink);
    ListIsTraced(g, b, sink);
  }

  // ---- The part of the graph below a demuxer ----

  /** Some output of the codec whose input is sink `a` lists sink `b`. */
  ghost predicate Hop(g: Graph, a: Node, b: Node) {
    IsSink(g, a) && IsCodec(a) && exists k: nat :: Lists(g, a.(stream := k), b)
  }

  ghost predicate IsTop(g: Graph, sink: Node) {
    exists d: nat, j: nat :: Lists(g, Node(DEMUX, d, j), sink)
  }

  /** The sinks met going down the lists of sinks from a demuxer through codecs. */
  ghost predicate IsDescent(g: Graph, w: seq<Node>) {
    && |w| > 0 && IsTop(g, w[0])
    && (forall i | 0 < i < |w| :: Hop(g, w[i - 1], w[i]))
  }

  /** In a linked graph a hop down can be traced back from where it leads. */
  lemma HopIsTraced(g: Graph, a: Node, b: Node)
    requires Linked(g) && Hop(g, a, b)
    ensures IsSink(g, b) && IsCodec(SourceOf(g, b)) && a == SourceOf(g, b).(stream := 0)
  {
    var k: nat :| Lists(g, a.(stream := k), b);
    ListIsTraced(g, a.(stream := k), b);
  }

  lemma TopIsTraced(g: Graph, sink: Node)
    requires Linked(g) && IsTop(g, sink)
    ensures IsSink(g, sink) && SourceOf(g, sink).kind == DEMUX
  {
    var d: nat, j: nat :| Lists(g, Node(DEMUX, d, j), sink);
    ListIsTraced(g, Node(DEMUX, d, j), sink);
  }

  lemma DescentPrefix(g: Graph, w: seq<Node>, n: nat)
    requires IsDescent(g, w) && 0 < n <= |w|
    ensures IsDescent(g, w[..n])
  {
    forall i | 0 < i < n ensures Hop(g, w[..n][i - 1], w[..n][i]) {
      assert Hop(g, w[i - 1], w[i]);
    }
  }

  /** Where a descent was before its last sink, if it was anywhere. */
  lemma LastHop(g: Graph, w: seq<Node>)
    requires Linked(g) && IsDescent(g, w)
    ensures var n := |w|;
            && IsSink(g, w[n - 1])
            && (if n == 1 then SourceOf(g, w[0]).kind == DEMUX
                else IsCodec(SourceOf(g, w[n - 1])) && w[n - 2] == SourceOf(g, w[n - 1]).(stream := 0))
  {
    if |w| == 1 {
      TopIsTraced(g, w[0]);
    } else {
      assert Hop(g, w[|w| - 2], w[|w| - 1]);
      HopIsTraced(g, w[|w| - 2], w[|w| - 1]);
    }
  }

  lemma SameLastHop(g: Graph, u: seq<Node>, w: seq<Node>)
    requires Linked(g) && IsDescent(g, u) && IsDescent(g, w) && u[|u| - 1] == w[|w| - 1]
    ensures |u| == 1 <==> |w| == 1
    ensures |u| > 1 ==> u[|u| - 2] == w[|w| - 2]
  {
    LastHop(g, u);
    LastHop(g, w);
  }

  /** There is one way down to each sink: what lies below the demuxers is a forest. */
  lemma {:induction false} DescentIsUnique(g: Graph, u: seq<Node>, w: seq<Node>)
    requires Linked(g) && IsDescent(g, u) && IsDescent(g, w) && u[|u| - 1] == w[|w| - 1]
    ensures u == w
    decreases |u|
  {
    SameLastHop(g, u, w);
    if |u| > 1 {
      DescentPrefix(g, u, |u| - 1);
      DescentPrefix(g, w, |w| - 1);
      DescentIsUnique(g, Front(u), Front(w));
    }
    SameFrontSameLast(u, w);
  }

  function Front<T>(s: seq<T>): seq<T>
    requires s != []
  {
    s[..|s| - 1]
  }

  lemma SameFrontSameLast<T>(u: seq<T>, w: seq<T>)
    requires u != [] && w != [] && Front(u) == Front(w) && u[|u| - 1] == w[|w| - 1]
    ensures u == w
  {
    assert u == Front(u) + [u[|u| - 1]] && w == Front(w) + [w[|w| - 1]];
  }

  lemma DescentNeverReturns(g: Graph, w: seq<Node>)
    requires Linked(g) && IsDescent(g, w)
    ensures Distinct(w)
  {
    forall a: nat, b: nat | a < b < |w| ensures w[a] != w[b] {
      if w[a] == w[b] {
        SamePlaceSameWay(g, w, a, b);
      }
    }
  }

  lemma SamePlaceSameWay(g: Graph, w: seq<Node>, a: nat, b: nat)
    requires Linked(g) && IsDescent(g, w) && a < |w| && b < |w| && w[a] == w[b]
    ensures a == b
  {
    var u, v := w[..a + 1], w[..b + 1];
    DescentPrefix(g, w, a + 1);
    DescentPrefix(g, w, b + 1);
    LastOfPrefix(w, a);
    LastOfPrefix(w, b);
    DescentIsUnique(g, u, v);
  }

  lemma LastOfPrefix<T>(w: seq<T>, a: nat)
    requires a < |w|
    ensures |w[..a + 1]| == a + 1 && w[..a + 1][a] == w[a]
  {
  }

  function SinkId(g: Graph, n: Node): nat {
    if n.kind == DEC then n.idx else |g.dec| + n.idx
  }

  lemma HopId(g: Graph, a: Node, b: Node)
    requires Hop(g, a, b)
    ensures SinkId(g, a) < NbCodecs(g) && IsCodec(a) && a.stream == 0
  {
  }

  /** Going down from a demuxer ends: no descent is longer than there are codecs and one. */
  lemma DescentIsBounded(g: Graph, w: seq<Node>)
    requires Linked(g) && IsDescent(g, w)
    ensures |w| <= NbCodecs(g) + 1
  {
    DescentNeverReturns(g, w);
    var ids := seq(|w| - 1, i requires 0 <= i < |w| - 1 => SinkId(g, w[i]));
    assert Distinct(ids) by {
      forall a, b | 0 <= a < b < |ids| ensures ids[a] != ids[b] {
        assert Hop(g, w[a + 1 - 1], w[a + 1]) && Hop(g, w[b + 1 - 1], w[b + 1]);
        HopId(g, w[a], w[a + 1]);
        HopId(g, w[b], w[b + 1]);
        assert w[a] != w[b];
      }
    }
    forall i | 0 <= i < |ids| ensures ids[i] < NbCodecs(g) {
      assert Hop(g, w[i + 1 - 1], w[i + 1]);
      HopId(g, w[i], w[i + 1]);
    }
    Pigeonhole(ids, NbCodecs(g));
  }
}
