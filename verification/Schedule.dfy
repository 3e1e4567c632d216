/** Choosing the tasks that may run: the marking pass and the scheduling update. */
module Schedule {
  import opened Topology
  import opened Options
  import opened Acyclic
  import opened Unchoking
  import opened Demand

  /** The flags in a set were given one value, the others are as before. */
  ghost predicate AreSet(now: seq<bool>, was: seq<bool>, flags: set<nat>, value: bool) {
    |now| == |was| && forall x: nat | x < |now| :: now[x] == if x in flags then value else was[x]
  }

  lemma SetOneMore(now: seq<bool>, was: seq<bool>, flags: set<nat>, value: bool, i: nat)
    requires AreSet(now, was, flags, value) && i < |now|
    ensures AreSet(now[i := value], was, flags + {i}, value)
  {
  }

  class Scheduler {
    const g: Graph
    var mux: seq<seq<MuxStream>>
    var inputs: seq<seq<FilterIn>>
    var demuxExited: seq<bool>
    var filterExited: seq<bool>
    var terminate: bool
    /** Trailing timestamp found by the last update. */
    var lastDts: Option<int>
    /** Tasks held back, and decoder queues frozen. */
    var demuxChoked: seq<bool>
    var filterChoked: seq<bool>
    var decChoked: seq<bool>
    /** The input each filtergraph wants; see BestOk. */
    var best: seq<nat>
    /** choked_next of the demuxers' and the filtergraphs' waiters. */
    var demuxNext: seq<bool>
    var filterNext: seq<bool>

    /** A graph that start_prepare has accepted, before any update: nothing is held,
        nothing was sent, and each filtergraph wants its first input. An update would not
        end if a muxed stream led up into a loop of codecs alone. */
    constructor (g: Graph)
      requires Schedulable(g)
      ensures Valid() && this.g == g && !terminate
      ensures forall d | 0 <= d < |g.demux| :: !demuxChoked[d] && !demuxExited[d]
      ensures forall f | 0 <= f < |g.filters| :: !filterChoked[f] && !filterExited[f] && best[f] == 0
      ensures forall x | 0 <= x < |g.dec| :: !decChoked[x]
      ensures forall i, j | 0 <= i < |mux| && 0 <= j < |mux[i]| :: mux[i][j] == MuxStream(None, false)
    {
      this.g := g;
      terminate, lastDts := false, None;
      mux := seq(|g.mux|, i requires 0 <= i < |g.mux| => seq(|g.mux[i]|, _ => MuxStream(None, false)));
      inputs := seq(|g.filters|, f requires 0 <= f < |g.filters| =>
                      seq(|g.filters[f].inputs|, _ => FilterIn(false, false)));
      demuxExited, filterExited := seq(|g.demux|, _ => false), seq(|g.filters|, _ => false);
      demuxChoked, filterChoked := seq(|g.demux|, _ => false), seq(|g.filters|, _ => false);
      demuxNext, filterNext := seq(|g.demux|, _ => false), seq(|g.filters|, _ => false);
      decChoked, best := seq(|g.dec|, _ => false), seq(|g.filters|, _ => 0);
    }

    ghost predicate Valid()
      reads this
    {
      Wellformed() && Shaped()
    }

    /** There is a mark for every task. */
    ghost predicate Shaped()
      reads this`demuxNext, this`filterNext
    {
      |demuxNext| == |g.demux| && |filterNext| == |g.filters|
    }

    ghost predicate Wellformed()
      reads this`best, this`mux, this`inputs, this`demuxExited, this`filterExited
      reads this`demuxChoked, this`filterChoked, this`decChoked
    {
      && Schedulable(g) && BestOk(g, best)
      && |demuxChoked| == |g.demux| && |filterChoked| == |g.filters| && |decChoked| == |g.dec|
      && |demuxExited| == |g.demux| && |filterExited| == |g.filters|
      && MuxShape(g, mux) && InputShape(g, inputs)
    }

    /** The tasks marked to run. */
    ghost function Running(): set<Waiter>
      reads this`demuxNext, this`filterNext
    {
      Unheld(demuxNext, filterNext)
    }

    /** The tasks that are not held back. */
    ghost function Free(): set<Waiter>
      reads this`demuxChoked, this`filterChoked
    {
      Unheld(demuxChoked, filterChoked)
    }

    static ghost function Unheld(demux: seq<bool>, filter: seq<bool>): set<Waiter> {
      (set i | 0 <= i < |demux| && !demux[i] :: OnDemux(i))
      + (set i | 0 <= i < |filter| && !filter[i] :: OnFilter(i))
    }

    ghost function ChokedDemuxes(): set<nat>
      reads this`demuxNext
    {
      set i | 0 <= i < |demuxNext| && demuxNext[i]
    }

    method RunFilter(f: nat)
      requires Valid() && f < |g.filters|
      modifies `filterNext
      ensures Shaped() && Running() == old(Running()) + {OnFilter(f)}
      ensures Marked(g, best, old(Running()), Running(), {OnFilter(f)})
    {
      filterNext := filterNext[f := false];
      assert Running() == old(Running()) + {OnFilter(f)};
      MarkFilter(g, best, old(Running()), f);
    }

    method RunDemux(d: nat)
      requires Valid() && d < |g.demux| && demuxNext[d]
      modifies `demuxNext
      ensures Shaped() && Running() == old(Running()) + {OnDemux(d)}
      ensures ChokedDemuxes() < old(ChokedDemuxes())
    {
      demuxNext := demuxNext[d := false];
      assert d in old(ChokedDemuxes());
      assert Running() == old(Running()) + {OnDemux(d)};
    }

    /** Marks the tasks that data arriving at `dst` depends on. */
    method UnchokeDownstream(dst: Node)
      requires Valid() && IsFed(g, dst)
      modifies `demuxNext, `filterNext
      ensures Shaped() && ChokedDemuxes() <= old(ChokedDemuxes())
      ensures Marked(g, best, old(Running()), Running(), Wakes(g, best, dst))
      decreases ChokedDemuxes(), 1, Below(g, dst), 1
    {
      match dst.kind
      case DEC =>
        UnchokeOutputs(dst.idx);
      case ENC =>
        UnchokePackets(dst.idx);
      case FILTER_IN =>
        if best[dst.idx] == |g.filters[dst.idx].inputs| {
          RunFilter(dst.idx);
        } else {
          // the wanted input may come from another demuxer, which has to run too
          InputIsSource(g, dst.idx, best[dst.idx]);
          UnchokeForStream(g.filters[dst.idx].inputs[best[dst.idx]]);
        }
      case _ =>
        // nothing below a muxer can be held
        MarkNothing(g, best, Running());
    }

    method UnchokeOutputs(i: nat)
      requires Valid() && DecIsFed(g, i)
      modifies `demuxNext, `filterNext
      ensures Shaped() && ChokedDemuxes() <= old(ChokedDemuxes())
      ensures Marked(g, best, old(Running()), Running(), OutputsWake(g, best, i, |g.dec[i].outputs|))
      decreases ChokedDemuxes(), 1, BelowDec(g, i), 0, 1
    {
      hide Marked, Schedulable;
      assert Marked(g, best, Running(), Running(), OutputsWake(g, best, i, 0)) by {
        MarkNothing(g, best, Running());
      }
      for k := 0 to |g.dec[i].outputs|
        invariant Shaped() && ChokedDemuxes() <= old(ChokedDemuxes())
        invariant Marked(g, best, old(Running()), Running(), OutputsWake(g, best, i, k))
      {
        UnchokeOutput(i, k, old(Running()));
      }
    }

    method UnchokeOutput(i: nat, k: nat, ghost start: set<Waiter>)
      requires Valid() && DecIsFed(g, i) && k < |g.dec[i].outputs|
      requires Marked(g, best, start, Running(), OutputsWake(g, best, i, k))
      modifies `demuxNext, `filterNext
      ensures Shaped() && ChokedDemuxes() <= old(ChokedDemuxes())
      ensures Marked(g, best, start, Running(), OutputsWake(g, best, i, k + 1))
      decreases ChokedDemuxes(), 1, BelowDec(g, i), 0, 0
    {
      OutputIsBelow(g, i, k);
      UnchokeDownstream(g.dec[i].outputs[k][0]);
      MarkThenMark(g, best, start, old(Running()), Running(),
                   OutputsWake(g, best, i, k), Wakes(g, best, g.dec[i].outputs[k][0]));
    }

    method UnchokePackets(i: nat)
      requires Valid() && EncIsFed(g, i)
      modifies `demuxNext, `filterNext
      ensures Shaped() && ChokedDemuxes() <= old(ChokedDemuxes())
      ensures Marked(g, best, old(Running()), Running(), PacketsWake(g, best, i, |g.enc[i].dst|))
      decreases ChokedDemuxes(), 1, BelowEnc(g, i), 0, 1
    {
      hide Marked, Schedulable;
      assert Marked(g, best, Running(), Running(), PacketsWake(g, best, i, 0)) by {
        MarkNothing(g, best, Running());
      }
      for k := 0 to |g.enc[i].dst|
        invariant Shaped() && ChokedDemuxes() <= old(ChokedDemuxes())
        invariant Marked(g, best, old(Running()), Running(), PacketsWake(g, best, i, k))
      {
        UnchokePacket(i, k, old(Running()));
      }
    }

    method UnchokePacket(i: nat, k: nat, ghost start: set<Waiter>)
      requires Valid() && EncIsFed(g, i) && k < |g.enc[i].dst|
      requires Marked(g, best, start, Running(), PacketsWake(g, best, i, k))
      modifies `demuxNext, `filterNext
      ensures Shaped() && ChokedDemuxes() <= old(ChokedDemuxes())
      ensures Marked(g, best, start, Running(), PacketsWake(g, best, i, k + 1))
      decreases ChokedDemuxes(), 1, BelowEnc(g, i), 0, 0
    {
      PacketIsBelow(g, i, k);
      UnchokeDownstream(g.enc[i].dst[k]);
      MarkThenMark(g, best, start, old(Running()), Running(),
                   PacketsWake(g, best, i, k), Wakes(g, best, g.enc[i].dst[k]));
    }

    method UnchokeStreams(d: nat)
      requires Valid() && d < |g.demux|
      modifies `demuxNext, `filterNext
      ensures Shaped() && ChokedDemuxes() <= old(ChokedDemuxes())
      ensures Marked(g, best, old(Running()), Running(), StreamsWake(g, best, d, |g.demux[d]|))
      decreases ChokedDemuxes(), 2, 1
    {
      hide Marked, Schedulable;
      assert Marked(g, best, Running(), Running(), StreamsWake(g, best, d, 0)) by {
        MarkNothing(g, best, Running());
      }
      for k := 0 to |g.demux[d]|
        invariant Shaped() && ChokedDemuxes() <= old(ChokedDemuxes())
        invariant Marked(g, best, old(Running()), Running(), StreamsWake(g, best, d, k))
      {
        UnchokeStream(d, k, old(Running()));
      }
    }

    method UnchokeStream(d: nat, k: nat, ghost start: set<Waiter>)
      requires Valid() && d < |g.demux| && k < |g.demux[d]|
      requires Marked(g, best, start, Running(), StreamsWake(g, best, d, k))
      modifies `demuxNext, `filterNext
      ensures Shaped() && ChokedDemuxes() <= old(ChokedDemuxes())
      ensures Marked(g, best, start, Running(), StreamsWake(g, best, d, k + 1))
      decreases ChokedDemuxes(), 2, 0
    {
      StreamHasSink(g, d, k);
      UnchokeDownstream(g.demux[d][k][0]);
      MarkThenMark(g, best, start, old(Running()), Running(),
                   StreamsWake(g, best, d, k), Wakes(g, best, g.demux[d][k][0]));
    }

    /** Follows `start` up to the task it ultimately waits for. */
    method AwaitedTask(start: Node) returns (w: Waiter)
      requires Valid() && IsGrounded(g, start)
      ensures w == Resolve(g, best, start) && WaitsFor(g, best, start, w)
    {
      ResolveIsWaitedFor(g, best, start);
      var src := start;
      while src.kind != DEMUX
        invariant IsGrounded(g, src) && Resolve(g, best, src) == Resolve(g, best, start)
        decreases FilterRank(g, src), Depth(g, src)
      {
        if src.kind == DEC {
          CodecKeepsRank(g, src);
          src := g.dec[src.idx].src;
        } else if src.kind == ENC {
          CodecKeepsRank(g, src);
          src := g.enc[src.idx].src;
        } else {
          // a filtergraph that wants no input is itself what the stream waits for
          if best[src.idx] == |g.filters[src.idx].inputs| {
            return OnFilter(src.idx);
          }
          FilterLowersRank(g, src, best[src.idx]);
          src := g.filters[src.idx].inputs[best[src.idx]];
        }
      }
      return OnDemux(src.idx);
    }

    /** Marks the task `start` ultimately waits for, and what that task wakes. */
    method UnchokeForStream(start: Node)
      requires Valid() && IsGrounded(g, start)
      modifies `demuxNext, `filterNext
      ensures Shaped() && ChokedDemuxes() <= old(ChokedDemuxes())
      ensures Marked(g, best, old(Running()), Running(), {Resolve(g, best, start)})
      ensures exists w | w in Running() :: WaitsFor(g, best, start, w)
      decreases ChokedDemuxes(), 0
    {
      var w := AwaitedTask(start);
      if w.OnFilter? {
        RunFilter(w.idx);
      } else if !demuxNext[w.idx] {
        // its streams were gone through when it was marked
        MarkPresent(g, best, Running(), w);
      } else {
        RunDemux(w.idx);
        UnchokeStreams(w.idx);
        MarkDemux(g, best, old(Running()), Running(), w.idx);
      }
    }

    /** Least timestamp among the muxed streams; see IsTrailing. */
    method TrailingDts(countFinished: bool) returns (r: Option<int>)
      ensures IsTrailing(mux, countFinished, r)
    {
      var min := INT64_MAX;
      for i := 0 to |mux|
        invariant LeastSoFar(mux, countFinished, i, 0, min)
      {
        for j := 0 to |mux[i]|
          invariant LeastSoFar(mux, countFinished, i, j, min)
        {
          var ms := mux[i][j];
          if ms.sourceFinished && !countFinished {
            continue;
          }
          if ms.lastDts == None {
            return None;
          }
          if ms.lastDts.value < min {
            min := ms.lastDts.value;
          }
        }
      }
      return if min == INT64_MAX then None else Some(min);
    }

    /** `min` is the least timestamp, up to INT64_MAX, before stream (i, j). */
    static ghost predicate LeastSoFar(mux: seq<seq<MuxStream>>, countFinished: bool, i: nat, j: nat, min: int) {
      && (forall a, b | 0 <= a < |mux| && 0 <= b < |mux[a]| && (a < i || (a == i && b < j))
            && Counts(mux[a][b], countFinished) ::
            mux[a][b].lastDts.Some? && min <= mux[a][b].lastDts.value)
      && min <= INT64_MAX
      && (min < INT64_MAX ==> exists a, b | 0 <= a < |mux| && 0 <= b < |mux[a]| ::
            Counts(mux[a][b], countFinished) && mux[a][b].lastDts == Some(min))
    }

    // ---- The update ----

    method HoldAll()
      requires Valid()
      modifies `demuxNext, `filterNext
      ensures Shaped() && Serves([])
    {
      for i := 0 to |g.demux|
        invariant |demuxNext| == |g.demux| && forall k | 0 <= k < i :: demuxNext[k]
        invariant |filterNext| == |g.filters|
      {
        demuxNext := demuxNext[i := true];
      }
      for i := 0 to |g.filters|
        invariant |demuxNext| == |g.demux| && forall k | 0 <= k < |g.demux| :: demuxNext[k]
        invariant |filterNext| == |g.filters| && forall k | 0 <= k < i :: filterNext[k]
      {
        filterNext := filterNext[i := true];
      }
      assert Running() == {} && Seeds(g, best, []) == {};
      MarkNothing(g, best, {});
    }

    /** The tasks marked so far are those the sources in `asked` need. */
    ghost predicate Serves(asked: seq<Node>)
      reads this`best, this`demuxNext, this`filterNext
    {
      && Schedulable(g) && BestOk(g, best) && AllGrounded(g, asked)
      && Marked(g, best, {}, Running(), Seeds(g, best, asked))
    }

    /** Resolves one more source to unchoke. */
    method Serve(src: Node, ghost asked: seq<Node>)
      requires Valid() && Serves(asked) && IsGrounded(g, src)
      modifies `demuxNext, `filterNext
      ensures Shaped() && Serves(asked + [src])
    {
      UnchokeForStream(src);
      MarkThenMark(g, best, {}, old(Running()), Running(), Seeds(g, best, asked), {Resolve(g, best, src)});
      OneMoreSeed(g, best, asked, src);
    }

    method ServeStream(i: nat, j: nat, ghost asked: seq<Node>)
      requires Valid() && i < |g.mux| && j < |g.mux[i]| && Serves(asked)
      modifies `demuxNext, `filterNext
      ensures Shaped() && Serves(asked + [g.mux[i][j]])
    {
      MuxStreamIsGrounded(g, i, j);
      Serve(g.mux[i][j], asked);
    }

    method ServeInput(f: nat, j: nat, ghost asked: seq<Node>)
      requires Valid() && f < |g.filters| && j < |g.filters[f].inputs| && Serves(asked)
      modifies `demuxNext, `filterNext
      ensures Shaped() && Serves(asked + [g.filters[f].inputs[j]])
    {
      InputIsSource(g, f, j);
      Serve(g.filters[f].inputs[j], asked);
    }

    method UnchokeMux(i: nat, dts: Option<int>, ghost asked: seq<Node>) returns (taken: bool)
      requires Valid() && i < |mux| && Serves(asked)
      modifies `demuxNext, `filterNext
      ensures Shaped() && (taken <==> exists j | 0 <= j < |mux[i]| :: Eligible(mux[i][j], dts))
      ensures Serves(RowAsks(asked, mux[i], g.mux[i], dts, |mux[i]|))
    {
      taken := false;
      for j := 0 to |mux[i]|
        invariant Shaped() && (taken <==> exists k | 0 <= k < j :: Eligible(mux[i][k], dts))
        invariant Serves(RowAsks(asked, mux[i], g.mux[i], dts, j))
      {
        if Eligible(mux[i][j], dts) {
          ServeStream(i, j, RowAsks(asked, mux[i], g.mux[i], dts, j));
          taken := true;
          assert Eligible(mux[i][j], dts);
        }
      }
    }

    /** Serves every eligible stream, and tells whether there was one. */
    method UnchokeMuxes(dts: Option<int>) returns (taken: bool)
      requires Valid() && Serves([])
      modifies `demuxNext, `filterNext
      ensures Shaped() && (taken <==> AnyEligible(mux, dts))
      ensures Serves(MuxAsks(g, mux, dts, |mux|))
    {
      taken := false;
      for i := 0 to |mux|
        invariant Shaped()
        invariant taken <==> exists a, b | 0 <= a < i && 0 <= b < |mux[a]| :: Eligible(mux[a][b], dts)
        invariant Serves(MuxAsks(g, mux, dts, i))
      {
        var one := UnchokeMux(i, dts, MuxAsks(g, mux, dts, i));
        taken := taken || one;
      }
    }

    method UnchokePads(f: nat, ghost asked: seq<Node>)
      requires Valid() && f < |inputs| && Serves(asked)
      modifies `demuxNext, `filterNext
      ensures Shaped() && Serves(PadAsks(asked, inputs[f], g.filters[f].inputs, |inputs[f]|))
    {
      for j := 0 to |inputs[f]|
        invariant Shaped() && Serves(PadAsks(asked, inputs[f], g.filters[f].inputs, j))
      {
        if Unnoticed(inputs[f][j]) {
          ServeInput(f, j, PadAsks(asked, inputs[f], g.filters[f].inputs, j));
        }
      }
    }

    method UnchokeFilter(f: nat, ghost asked: seq<Node>)
      requires Valid() && f < |inputs| && Serves(InputAsks(g, asked, inputs, f))
      modifies `demuxNext, `filterNext
      ensures Shaped() && Serves(InputAsks(g, asked, inputs, f + 1))
    {
      UnchokePads(f, InputAsks(g, asked, inputs, f));
    }

    /** Serves every closed input whose feeder has yet to learn that it is closed. */
    method UnchokeInputs(ghost asked: seq<Node>)
      requires Valid() && Serves(asked)
      modifies `demuxNext, `filterNext
      ensures Shaped() && Serves(InputAsks(g, asked, inputs, |inputs|))
    {
      hide Marked, Schedulable;
      for f := 0 to |inputs|
        invariant Shaped() && Serves(InputAsks(g, asked, inputs, f))
      {
        UnchokeFilter(f, asked);
      }
    }

    /** Marks the first task that has not exited. */
    method UnchokeAny()
      requires Valid()
      modifies `demuxNext, `filterNext
      ensures Shaped() && Running() == old(Running()) + FirstLive(demuxExited, filterExited)
    {
      for i := 0 to |g.demux|
        invariant Shaped() && unchanged(this) && forall k | 0 <= k < i :: demuxExited[k]
      {
        if !demuxExited[i] {
          FirstFalseIs(demuxExited, i);
          demuxNext := demuxNext[i := false];
          assert Running() == old(Running()) + {OnDemux(i)};
          return;
        }
      }
      for i := 0 to |g.filters|
        invariant Shaped() && unchanged(this) && forall k | 0 <= k < i :: filterExited[k]
      {
        if !filterExited[i] {
          FirstFalseIs(filterExited, i);
          filterNext := filterNext[i := false];
          assert Running() == old(Running()) + {OnFilter(i)};
          return;
        }
      }
    }

    /** Freezes or unfreezes the queue of the decoder fed first by a demuxer stream. */
    method ChokeStream(d: nat, j: nat, choked: bool, ghost was: seq<bool>, ghost done: set<nat>)
      requires Valid() && d < |g.demux| && j < |g.demux[d]|
      requires AreSet(decChoked, was, done, choked)
      modifies `decChoked
      ensures AreSet(decChoked, was, done + StreamDecoder(g, d, j), choked)
    {
      StreamHasSink(g, d, j);
      var dst := g.demux[d][j][0];
      if dst.kind == DEC {
        SetOneMore(decChoked, was, done, choked, dst.idx);
        decChoked := decChoked[dst.idx := choked];
      } else {
        assert done + StreamDecoder(g, d, j) == done;
      }
    }

    /** Freezes or unfreezes the queues of the decoders fed first by demuxer `d`. */
    method ChokeDemux(d: nat, choked: bool)
      requires Valid() && d < |g.demux|
      modifies `decChoked
      ensures Valid()
      ensures forall x | 0 <= x < |g.dec| ::
        decChoked[x] == if IsFirstSink(g, d, x) then choked else old(decChoked[x])
      ensures AreSet(decChoked, old(decChoked), FirstDecoders(g, d, |g.demux[d]|), choked)
    {
      for j := 0 to |g.demux[d]|
        invariant Valid() && AreSet(decChoked, old(decChoked), FirstDecoders(g, d, j), choked)
      {
        ChokeStream(d, j, choked, old(decChoked), FirstDecoders(g, d, j));
      }
      forall x | 0 <= x < |g.dec|
        ensures decChoked[x] == if IsFirstSink(g, d, x) then choked else old(decChoked[x])
      {
        FirstDecodersAre(g, d, x);
      }
    }

    /** Holds or releases demuxer `d` as marked, and its decoders' queues with it. */
    method ApplyDemux(d: nat)
      requires Valid() && d < |g.demux|
      modifies `demuxChoked, `decChoked
      ensures Valid() && demuxChoked == old(demuxChoked)[d := demuxNext[d]]
      ensures forall x: nat | x < |decChoked| ::
        decChoked[x] == if old(demuxChoked[d]) != demuxNext[d] && x in FirstDecoders(g, d, |g.demux[d]|)
                        then demuxNext[d] else old(decChoked[x])
    {
      if demuxChoked[d] != demuxNext[d] {
        demuxChoked := demuxChoked[d := demuxNext[d]];
        ChokeDemux(d, demuxNext[d]);
      }
    }

    method ApplyDemuxes()
      requires Valid()
      modifies `demuxChoked, `decChoked
      ensures Valid() && demuxChoked == demuxNext
      ensures forall x: nat | x < |decChoked| ::
        decChoked[x] == Refrozen(g, x, old(demuxChoked), demuxNext, old(decChoked[x]), |g.demux|)
    {
      for d := 0 to |g.demux|
        invariant Valid()
        invariant forall k | 0 <= k < |g.demux| ::
          demuxChoked[k] == if k < d then demuxNext[k] else old(demuxChoked[k])
        invariant forall x: nat | x < |decChoked| ::
          decChoked[x] == Refrozen(g, x, old(demuxChoked), demuxNext, old(decChoked[x]), d)
      {
        forall x: nat | x < |decChoked| && x in FirstDecoders(g, d, |g.demux[d]|)
          ensures g.dec[x].src.kind == DEMUX && g.dec[x].src.idx == d
        {
          FirstDecoderSource(g, d, |g.demux[d]|, x);
        }
        ApplyDemux(d);
      }
    }

    method ApplyFilters()
      requires Valid()
      modifies `filterChoked
      ensures Valid() && filterChoked == filterNext
    {
      for f := 0 to |g.filters|
        invariant Valid() && forall k | 0 <= k < f :: filterChoked[k] == filterNext[k]
      {
        if filterChoked[f] != filterNext[f] {
          filterChoked := filterChoked[f := filterNext[f]];
        }
      }
    }

    /** The tasks `running` are what the present state of the streams asks for. */
    ghost predicate Justified(core: set<Waiter>, running: set<Waiter>)
      reads this`best, this`mux, this`lastDts, this`inputs, this`demuxExited, this`filterExited
    {
      && Schedulable(g) && BestOk(g, best) && MuxShape(g, mux) && InputShape(g, inputs)
      && Decided(g, best, mux, lastDts, inputs, demuxExited, filterExited, core, running)
    }

    /** The marking part of an update, from nothing marked. */
    method MarkSources() returns (ghost core: set<Waiter>)
      requires Valid() && IsTrailing(mux, false, lastDts)
      modifies `demuxNext, `filterNext
      ensures Shaped() && Justified(core, Running())
    {
      HoldAll();
      var taken := UnchokeMuxes(lastDts);
      UnchokeInputs(MuxAsks(g, mux, lastDts, |mux|));
      core := Running();
      MarkedIsClosure(g, best, core, Seeds(g, best, Asked(g, mux, lastDts, inputs)));
      if !taken {
        UnchokeAny();
      } else {
        assert core + {} == core;
      }
    }

    method ApplyMarks()
      requires Valid()
      modifies `demuxChoked, `filterChoked, `decChoked
      ensures Valid() && Free() == Running()
      ensures forall x: nat | x < |decChoked| ::
        decChoked[x] == Refrozen(g, x, old(demuxChoked), demuxChoked, old(decChoked[x]), |g.demux|)
    {
      ApplyDemuxes();
      ApplyFilters();
    }

    /** Marks tasks and then holds or releases them as marked, unless the scheduler is
        terminating. */
    method ScheduleUpdate() returns (ghost core: set<Waiter>)
      requires Valid()
      modifies `lastDts, `demuxNext, `filterNext, `demuxChoked, `filterChoked, `decChoked
      ensures Valid()
      ensures terminate ==> unchanged(this)
      ensures !terminate ==> Justified(core, Free())
      ensures !terminate ==> forall x: nat | x < |decChoked| ::
        decChoked[x] == Refrozen(g, x, old(demuxChoked), demuxChoked, old(decChoked[x]), |g.demux|)
    {
      core := {};
      if terminate {
        return;
      }
      lastDts := TrailingDts(false);
      core := MarkSources();
      ApplyMarks();
    }

    /** First part of sch_stop: holds every task and lets the queues drain. An update that
        began before may still undo that: see Stopping. */
    method Terminate()
      requires Valid()
      modifies `terminate, `demuxChoked, `filterChoked, `decChoked
      ensures Valid() && terminate && Free() == {}
      ensures forall d, x | 0 <= d < |g.demux| && x in FirstDecoders(g, d, |g.demux[d]|) ::
        x < |decChoked| && !decChoked[x]
    {
      terminate := true;
      for f := 0 to |g.filters|
        invariant Valid() && terminate && forall k | 0 <= k < f :: filterChoked[k]
      {
        filterChoked := filterChoked[f := true];
      }
      for d := 0 to |g.demux|
        invariant Valid() && terminate && (forall k | 0 <= k < |g.filters| :: filterChoked[k])
        invariant forall k | 0 <= k < d :: demuxChoked[k]
        invariant forall k, x | 0 <= k < d && x in FirstDecoders(g, k, |g.demux[k]|) ::
          x < |decChoked| && !decChoked[x]
      {
        demuxChoked := demuxChoked[d := true];
        ChokeDemux(d, false);
        forall k, x | 0 <= k <= d && x in FirstDecoders(g, k, |g.demux[k]|)
          ensures x < |decChoked| && !decChoked[x]
        {
          FirstDecoderSource(g, k, |g.demux[k]|, x);
        }
      }
    }
  }
}
