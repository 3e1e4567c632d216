/** Two graphs with two demuxers: one that copies a stream of each, and one that overlays
    them in a filtergraph. */
module TwoInputs {
  import opened Topology
  import opened Options
  import opened Digraph
  import opened Acyclic
  import opened Unchoking
  import opened Demand
  import opened Needed

  // ---- Two copied streams ----

  const COPIED := Graph([[[Node(MUX, 0, 0)]], [[Node(MUX, 0, 1)]]], [], [], [],
                        [[Node(DEMUX, 0, 0), Node(DEMUX, 1, 0)]])

  lemma CopiedNodes(n: Node)
    ensures IsSource(COPIED, n) <==> n == Node(DEMUX, 0, 0) || n == Node(DEMUX, 1, 0)
    ensures IsSink(COPIED, n) <==> n == Node(MUX, 0, 0) || n == Node(MUX, 0, 1)
  {
  }

  lemma CopiedSinks()
    ensures IsSource(COPIED, Node(DEMUX, 0, 0)) && SinksOf(COPIED, Node(DEMUX, 0, 0)) == [Node(MUX, 0, 0)]
    ensures IsSource(COPIED, Node(DEMUX, 1, 0)) && SinksOf(COPIED, Node(DEMUX, 1, 0)) == [Node(MUX, 0, 1)]
  {
  }

  lemma CopiedIsAccepted()
    ensures Schedulable(COPIED)
  {
    CopiedSinks();
    forall n
      ensures SinkLinked(COPIED, n) && SinkJoined(COPIED, n)
      ensures SourceLinked(COPIED, n) && SourceJoined(COPIED, n)
    {
      CopiedNodes(n);
    }
    forall n | IsSource(COPIED, n) ensures Ends(COPIED, n) {
      CopiedNodes(n);
    }
  }

  /** The first stream is `ahead` of the second, which has come to 0. */
  function Ahead(ahead: nat): seq<seq<MuxStream>> {
    [[MuxStream(Some(ahead), false), MuxStream(Some(0), false)]]
  }

  lemma CopiedWalk(d: nat)
    requires d < 2
    ensures WaitsFor(COPIED, [], Node(DEMUX, d, 0), OnDemux(d))
  {
    var n := Node(DEMUX, d, 0);
    assert IsWalkUp(COPIED, [], [n]) && IsOutputOf(COPIED, [], [n][0], OnDemux(d));
  }

  lemma CopiedWaits(n: Node, w: Waiter)
    requires WaitsFor(COPIED, [], n, w)
    ensures w == OnDemux(n.idx) && n == Node(DEMUX, n.idx, 0)
  {
    var p: seq<Node> :| p != [] && p[0] == n && IsWalkUp(COPIED, [], p) && IsOutputOf(COPIED, [], p[|p| - 1], w);
    CopiedNodes(p[0]);
    assert |p| > 1 ==> IsStep(COPIED, [], p[0], p[1]);
  }

  /** Muxed streams bring no further task. */
  lemma CopiedBrings(a: Waiter, b: Waiter)
    ensures !Brings(COPIED, [], a, b)
  {
    forall dst: Node | dst.kind == MUX ensures !Wakens(COPIED, [], dst, b) {
      forall p: seq<Node> | p != [] && p[0] == dst && IsWalkDown(COPIED, p)
        ensures !NeedsTask(COPIED, [], p[|p| - 1], b)
      {
        assert |p| > 1 ==> GoesTo(COPIED, p[0], p[1]);
      }
    }
  }

  lemma SecondWants(ahead: nat)
    ensures var mux := Ahead(ahead); Wants(mux, 0, 1) && (Wants(mux, 0, 0) <==> ahead < 100000)
  {
    var mux: seq<seq<MuxStream>> := Ahead(ahead);
    assert !mux[0][1].sourceFinished && mux[0][1].lastDts == Some(0);
  }

  lemma CopiedIsNeeded(ahead: nat, d: nat)
    requires d == 1 || (d == 0 && ahead < 100000)
    ensures IsNeeded(COPIED, [], Ahead(ahead), [], OnDemux(d))
  {
    var mux: seq<seq<MuxStream>> := Ahead(ahead);
    var n, ws := Node(DEMUX, d, 0), [OnDemux(d)];
    SecondWants(ahead);
    assert COPIED.mux[0][d] == n && Wants(mux, 0, d);
    assert IsAsked(COPIED, mux, [], n);
    CopiedWalk(d);
    hide Wants, WaitsFor, Brings, IsAsked;
    assert IsChain(COPIED, [], ws) && ws[|ws| - 1] == OnDemux(d) && WaitsFor(COPIED, [], n, ws[0]);
  }

  lemma CopiedIsAsked(ahead: nat)
    requires IsAsked(COPIED, Ahead(ahead), [], Node(DEMUX, 0, 0))
    ensures ahead < 100000
  {
    SecondWants(ahead);
  }

  lemma CopiedIsNotNeeded(ahead: nat)
    requires IsNeeded(COPIED, [], Ahead(ahead), [], OnDemux(0))
    ensures ahead < 100000
  {
    hide Wants, WaitsFor, Brings, IsAsked;
    var n, ws: seq<Waiter> :| IsAsked(COPIED, Ahead(ahead), [], n) && ws != [] && WaitsFor(COPIED, [], n, ws[0])
      && IsChain(COPIED, [], ws) && ws[|ws| - 1] == OnDemux(0);
    if |ws| > 1 {
      CopiedBrings(ws[0], ws[1]);
    }
    CopiedWaits(n, ws[0]);
    CopiedIsAsked(ahead);
  }

  /** Beside a stream that has come to 0, the demuxer of one that has come to 99999 runs and
      that of one that has come to 100000 is held. */
  lemma FarAheadIsHeld(ahead: nat, dts: Option<int>, core: set<Waiter>, running: set<Waiter>)
    requires Schedulable(COPIED) && Decided(COPIED, [], Ahead(ahead), dts, [], [false, false], [], core, running)
    ensures OnDemux(1) in running
    ensures OnDemux(0) in running <==> ahead < 100000
  {
    var mux: seq<seq<MuxStream>> := Ahead(ahead);
    assert IsOpen(mux[0][1]);
    RunningExactly(COPIED, [], mux, dts, [], [false, false], [], core, running, OnDemux(0));
    RunningExactly(COPIED, [], mux, dts, [], [false, false], [], core, running, OnDemux(1));
    CopiedIsNeeded(ahead, 1);
    if ahead < 100000 {
      CopiedIsNeeded(ahead, 0);
    } else if IsNeeded(COPIED, [], mux, [], OnDemux(0)) {
      CopiedIsNotNeeded(ahead);
    }
  }

  // ---- An overlay ----

  const OVERLAY := Graph(
    [[[Node(DEC, 0, 0)]], [[Node(DEC, 1, 0)]]],
    [Decoder(Node(DEMUX, 0, 0), [[Node(FILTER_IN, 0, 0)]]), Decoder(Node(DEMUX, 1, 0), [[Node(FILTER_IN, 0, 1)]])],
    [Encoder(Node(FILTER_OUT, 0, 0), [Node(MUX, 0, 0)])],
    [FilterGraph([Node(DEC, 0, 0), Node(DEC, 1, 0)], [Node(ENC, 0, 0)])],
    [[Node(ENC, 0, 0)]])

  lemma OverlaySources(n: Node)
    ensures IsSource(OVERLAY, n) <==>
            n in {Node(DEMUX, 0, 0), Node(DEMUX, 1, 0), Node(DEC, 0, 0), Node(DEC, 1, 0),
                  Node(ENC, 0, 0), Node(FILTER_OUT, 0, 0)}
  {
  }

  lemma OverlaySinks(n: Node)
    ensures IsSink(OVERLAY, n) <==>
            n in {Node(DEC, 0, 0), Node(DEC, 1, 0), Node(FILTER_IN, 0, 0), Node(FILTER_IN, 0, 1),
                  Node(ENC, 0, 0), Node(MUX, 0, 0)}
  {
  }

  lemma OverlaySourceIsLinked(n: Node)
    ensures SourceLinked(OVERLAY, n) && SourceJoined(OVERLAY, n)
  {
    OverlaySources(n);
    if IsSource(OVERLAY, n) {
      assert |SinksOf(OVERLAY, n)| == 1;
    }
  }

  lemma OverlaySinkIsLinked(n: Node)
    ensures SinkLinked(OVERLAY, n) && SinkJoined(OVERLAY, n)
  {
    OverlaySinks(n);
    if IsSink(OVERLAY, n) {
      assert SinksOf(OVERLAY, SourceOf(OVERLAY, n)) == [n];
    }
  }

  lemma OverlayEnds(n: Node)
    requires Wired(OVERLAY) && IsSource(OVERLAY, n)
    ensures Ends(OVERLAY, n)
  {
    OverlaySources(n);
    if IsCodec(n) {
      UpIsSource(OVERLAY, n);
      assert Resolves(OVERLAY, Up(OVERLAY, n), 2);
    }
  }

  lemma OverlayIsAccepted()
    ensures Schedulable(OVERLAY)
  {
    forall n ensures SourceLinked(OVERLAY, n) && SourceJoined(OVERLAY, n) {
      OverlaySourceIsLinked(n);
    }
    forall n ensures SinkLinked(OVERLAY, n) && SinkJoined(OVERLAY, n) {
      OverlaySinkIsLinked(n);
    }
    forall n | IsSource(OVERLAY, n) ensures Ends(OVERLAY, n) {
      OverlayEnds(n);
    }
    OverlayHasNoCycle();
  }

  /** Both inputs come from demuxers. */
  lemma OverlayHasNoCycle()
    requires Ready(OVERLAY)
    ensures IsAcyclic(FeedersOf(OVERLAY))
  {
    forall j: nat | j < 2 ensures Feeder(OVERLAY, 0, j) == None {
      InputIsSource(OVERLAY, 0, j);
      DepthUp(OVERLAY, Node(DEC, j, 0));
      assert Origin(OVERLAY, Node(DEC, j, 0)) == Node(DEMUX, j, 0);
    }
    var t := FeedersOf(OVERLAY);
    assert t[0][0] == None && t[0][1] == None;
  }

  lemma OverlayWalk(b: nat)
    requires b < 2
    ensures WaitsFor(OVERLAY, [b], Node(ENC, 0, 0), OnDemux(b))
  {
    var p := [Node(ENC, 0, 0), Node(FILTER_OUT, 0, 0), Node(DEC, b, 0), Node(DEMUX, b, 0)];
    assert IsWalkUp(OVERLAY, [b], p) && IsOutputOf(OVERLAY, [b], p[3], OnDemux(b));
  }

  /** The encoder behind the overlay waits for the demuxer of the wanted input, and for no
      other task. */
  lemma WantedInputDecides(b: nat, w: Waiter)
    requires b < 2
    ensures Schedulable(OVERLAY)
    ensures WaitsFor(OVERLAY, [b], Node(ENC, 0, 0), w) <==> w == OnDemux(b)
  {
    OverlayIsAccepted();
    OverlayWalk(b);
    OverlaySources(Node(ENC, 0, 0));
    OverlayEnds(Node(ENC, 0, 0));
    hide WaitsFor, Schedulable, Ends;
    WaitsForOne(OVERLAY, [b], Node(ENC, 0, 0), w);
    WaitsForOne(OVERLAY, [b], Node(ENC, 0, 0), OnDemux(b));
  }
}
