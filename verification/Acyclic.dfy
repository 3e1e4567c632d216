/** The cycle check made before the scheduler starts: a depth-first walk up the
    filtergraphs with an explicit stack. */
module Acyclic {
  import opened Topology
  import opened Digraph
  import opened Options

  datatype Visit = NEW | STARTED | DONE

  ghost predicate Ready(g: Graph) {
    Wired(g) && FiltersEnd(g)
  }

  lemma InputIsSource(g: Graph, f: nat, j: nat)
    requires Wired(g) && f < |g.filters| && j < |g.filters[f].inputs|
    ensures IsSource(g, g.filters[f].inputs[j]) && FeedsFilter(g, g.filters[f].inputs[j])
  {
    var sink := Node(FILTER_IN, f, j);
    assert SinkLinked(g, sink) && SinkJoined(g, sink);
  }

  /** The filtergraph feeding input `j` of filtergraph `f`, if any does. */
  ghost function Feeder(g: Graph, f: nat, j: nat): (r: Option<nat>)
    requires Ready(g) && f < |g.filters| && j < |g.filters[f].inputs|
    ensures r.Some? ==> r.value < |g.filters|
  {
    InputIsSource(g, f, j);
    var n := Origin(g, g.filters[f].inputs[j]);
    if n.kind == FILTER_OUT then Some(n.idx) else None
  }

  /** The filtergraphs, seen through the codecs between them. */
  ghost function FeedersOf(g: Graph): (t: Feeders)
    requires Ready(g)
    ensures InRange(t) && |t| == |g.filters|
    ensures forall f | 0 <= f < |t| :: |t[f]| == |g.filters[f].inputs|
    ensures forall f, j | 0 <= f < |t| && 0 <= j < |t[f]| :: t[f][j] == Feeder(g, f, j)
  {
    seq(|g.filters|, f requires Ready(g) && 0 <= f < |g.filters| =>
      seq(|g.filters[f].inputs|, j requires Ready(g) && 0 <= f < |g.filters| && 0 <= j < |g.filters[f].inputs| =>
        Feeder(g, f, j)))
  }

  lemma {:induction false} ClimbToOrigin(g: Graph, n: Node, k: nat, top: Node)
    requires Wired(g) && IsSource(g, n) && Ends(g, n) && Climbs(g, n, k, top) && !IsCodec(top)
    ensures Origin(g, n) == top
    decreases k
  {
    if k > 0 {
      DepthUp(g, n);
      ClimbToOrigin(g, Up(g, n), k - 1, top);
    }
  }

  /** Going up from an input of filtergraph `f`, through codecs alone, leads to an output
      of filtergraph `h`. */
  ghost predicate FeedsInto(g: Graph, f: nat, j: nat, h: nat)
    requires Wired(g) && f < |g.filters| && j < |g.filters[f].inputs|
  {
    exists k: nat, pad: nat ::
      IsSource(g, g.filters[f].inputs[j]) && Climbs(g, g.filters[f].inputs[j], k, Node(FILTER_OUT, h, pad))
  }

  lemma FeederIs(g: Graph, f: nat, j: nat, h: nat)
    requires Ready(g) && f < |g.filters| && j < |g.filters[f].inputs|
    ensures Feeder(g, f, j) == Some(h) <==> FeedsInto(g, f, j, h)
  {
    InputIsSource(g, f, j);
    var n := g.filters[f].inputs[j];
    var o := Origin(g, n);
    assert Climbs(g, n, Depth(g, n), o);
    if FeedsInto(g, f, j, h) {
      var k: nat, pad: nat :| Climbs(g, n, k, Node(FILTER_OUT, h, pad));
      ClimbToOrigin(g, n, k, Node(FILTER_OUT, h, pad));
    }
  }

  /** The cycles looked for are those of the links between filtergraphs. */
  lemma EdgesAreLinks(g: Graph, f: nat, h: nat)
    requires Ready(g) && f < |g.filters|
    ensures Edge(FeedersOf(g), f, h) <==> exists j | 0 <= j < |g.filters[f].inputs| :: FeedsInto(g, f, j, h)
  {
    var t := FeedersOf(g);
    forall j | 0 <= j < |t[f]| ensures t[f][j] == Some(h) <==> FeedsInto(g, f, j, h) {
      FeederIs(g, f, j, h);
    }
  }

  // ---- Step count of the search ----

  function MaxInputs(t: Feeders): (m: nat)
    ensures forall f | 0 <= f < |t| :: |t[f]| <= m
  {
    if t == [] then 0
    else
      var m := MaxInputs(t[1..]);
      assert forall f | 1 <= f < |t| :: t[f] == t[1..][f - 1];
      if |t[0]| > m then |t[0]| else m
  }

  /** Loop iterations that finish a node with `r` inputs left to visit, when at most
      `deeper` more nodes fit on the walk and no node has more than `m` inputs. All
      simple upstream paths are walked, so the count is exponential. */
  function Cost(m: nat, deeper: nat, r: nat): nat
    decreases deeper, r
  {
    if r == 0 then 1
    else 1 + Cost(m, deeper, r - 1) + (if deeper > 0 then Cost(m, deeper - 1, m) else 0)
  }

  lemma {:induction false} CostMonotone(m: nat, deeper: nat, r: nat, s: nat)
    requires r <= s
    ensures Cost(m, deeper, r) <= Cost(m, deeper, s)
    decreases s
  {
    if r < s {
      CostMonotone(m, deeper, r, s - 1);
    }
  }

  ghost function CursorCost(t: Feeders, depth: nat, f: nat, c: nat): nat
    requires depth < |t| && f < |t| && c <= |t[f]|
  {
    Cost(MaxInputs(t), |t| - 1 - depth, |t[f]| - c)
  }

  /** Iterations still owed to the nodes `p` of the walk with cursors `c`. */
  ghost function WalkCost(t: Feeders, p: seq<nat>, c: seq<nat>): nat
    requires |p| == |c| <= |t| && forall a | 0 <= a < |p| :: p[a] < |t| && c[a] <= |t[p[a]]|
  {
    if p == [] then 0
    else
      var d := |p| - 1;
      WalkCost(t, p[..d], c[..d]) + CursorCost(t, d, p[d], c[d])
  }

  // ---- The search ----

  ghost predicate InputsBounded(t: Feeders, f: nat, upto: nat, n: nat)
    requires InRange(t) && f < |t| && upto <= |t[f]|
  {
    forall j | 0 <= j < upto :: t[f][j].Some? ==> Bounded(t, t[f][j].value, n)
  }

  /** The walk goes from `f` to `h` through the input before cursor `c`; the inputs
      before that one only lead to walks of at most `n` nodes. */
  ghost predicate Level(t: Feeders, f: nat, c: nat, h: nat, n: nat)
    requires InRange(t) && f < |t| && c <= |t[f]|
  {
    c > 0 && t[f][c - 1] == Some(h) && InputsBounded(t, f, c - 1, n)
  }

  /** The nodes being visited form a walk `p` from `start` without repetition. */
  ghost predicate Searching(t: Feeders, start: nat, p: seq<nat>, c: seq<nat>)
    requires InRange(t)
  {
    && 0 < |p| == |c| <= |t|
    && p[0] == start
    && Distinct(p)
    && (forall a | 0 <= a < |p| :: p[a] < |t| && c[a] <= |t[p[a]]|)
    && (forall a | 0 <= a < |p| - 1 :: Level(t, p[a], c[a], p[a + 1], |t| - 1 - a))
    && InputsBounded(t, p[|p| - 1], c[|p| - 1], |t| - |p|)
  }

  lemma SearchingWalks(t: Feeders, start: nat, p: seq<nat>, c: seq<nat>)
    requires InRange(t) && Searching(t, start, p, c)
    ensures IsWalk(t, p)
  {
    forall i | 0 <= i < |p| - 1 ensures Edge(t, p[i], p[i + 1]) {
      assert Level(t, p[i], c[i], p[i + 1], |t| - 1 - i);
    }
  }

  /** Meeting a node of the walk again closes a cycle reachable from the start. */
  lemma FoundCycle(t: Feeders, start: nat, p: seq<nat>, c: seq<nat>, a: nat)
    requires InRange(t) && Searching(t, start, p, c) && a < |p|
    requires c[|p| - 1] < |t[p[|p| - 1]]| && t[p[|p| - 1]][c[|p| - 1]] == Some(p[a])
    ensures HasCycle(t) && !Bounded(t, start, |t|)
  {
    SearchingWalks(t, start, p, c);
    SubWalk(t, p, a, |p| - 1);
    SubWalk(t, p, 0, a);
    var back := [p[|p| - 1], p[a]];
    JoinWalks(t, p[a..|p|], back);
    var w := p[a..|p|] + back[1..];
    assert IsCycle(t, w);
    CycleUnbounded(t, p[0..a + 1], w, |t|);
  }

  /** Moving the cursor of the last node past an input that needs no visit. */
  lemma Advance(t: Feeders, start: nat, p: seq<nat>, c: seq<nat>)
    requires InRange(t) && Searching(t, start, p, c)
    requires c[|p| - 1] < |t[p[|p| - 1]]|
    requires var next := t[p[|p| - 1]][c[|p| - 1]];
      next.Some? ==> Bounded(t, next.value, |t| - |p|)
    ensures Searching(t, start, p, c[|p| - 1 := c[|p| - 1] + 1])
  {
    var c' := c[|p| - 1 := c[|p| - 1] + 1];
    forall a | 0 <= a < |p| - 1 ensures Level(t, p[a], c'[a], p[a + 1], |t| - 1 - a) {
      assert Level(t, p[a], c[a], p[a + 1], |t| - 1 - a);
    }
  }

  lemma Descend(t: Feeders, start: nat, p: seq<nat>, c: seq<nat>, h: nat)
    requires InRange(t) && Searching(t, start, p, c) && h !in p
    requires c[|p| - 1] < |t[p[|p| - 1]]| && t[p[|p| - 1]][c[|p| - 1]] == Some(h)
    ensures Searching(t, start, p + [h], c[|p| - 1 := c[|p| - 1] + 1] + [0])
  {
    var p', c' := p + [h], c[|p| - 1 := c[|p| - 1] + 1] + [0];
    Pigeonhole(p', |t|);
    forall a | 0 <= a < |p'| - 1 ensures Level(t, p'[a], c'[a], p'[a + 1], |t| - 1 - a) {
      if a < |p| - 1 {
        assert Level(t, p[a], c[a], p[a + 1], |t| - 1 - a);
      }
    }
  }

  /** A finished node has bounded walks, and its parent may look at its next input. */
  lemma Finish(t: Feeders, start: nat, p: seq<nat>, c: seq<nat>)
    requires InRange(t) && Searching(t, start, p, c) && c[|p| - 1] == |t[p[|p| - 1]]|
    ensures Bounded(t, p[|p| - 1], |t| - |p| + 1)
    ensures |p| > 1 ==> Searching(t, start, p[..|p| - 1], c[..|p| - 1])
  {
    if |p| > 1 {
      var d := |p| - 2;
      assert Level(t, p[d], c[d], p[d + 1], |t| - 1 - d);
      assert InputsBounded(t, p[d], c[d], |t| - 1 - d);
    }
  }

  lemma AdvanceCost(t: Feeders, start: nat, p: seq<nat>, c: seq<nat>)
    requires InRange(t) && Searching(t, start, p, c) && c[|p| - 1] < |t[p[|p| - 1]]|
    ensures WalkCost(t, p, c) == 1 + WalkCost(t, p, c[|p| - 1 := c[|p| - 1] + 1])
      + (if |p| < |t| then Cost(MaxInputs(t), |t| - 1 - |p|, MaxInputs(t)) else 0)
  {
    var d := |p| - 1;
    var c' := c[d := c[d] + 1];
    assert c'[..d] == c[..d];
  }

  lemma DescendCost(t: Feeders, start: nat, p: seq<nat>, c: seq<nat>, h: nat)
    requires InRange(t) && Searching(t, start, p, c) && c[|p| - 1] < |t[p[|p| - 1]]|
    requires Searching(t, start, p + [h], c[|p| - 1 := c[|p| - 1] + 1] + [0])
    ensures WalkCost(t, p + [h], c[|p| - 1 := c[|p| - 1] + 1] + [0]) < WalkCost(t, p, c)
  {
    var c' := c[|p| - 1 := c[|p| - 1] + 1];
    assert |p + [h]| <= |t| && (p + [h])[|p|] == h && h < |t|;
    assert (p + [h])[..|p|] == p && (c' + [0])[..|p|] == c';
    AdvanceCost(t, start, p, c);
    CostMonotone(MaxInputs(t), |t| - 1 - |p|, |t[h]|, MaxInputs(t));
  }

  lemma PopCost(t: Feeders, start: nat, p: seq<nat>, c: seq<nat>)
    requires InRange(t) && Searching(t, start, p, c) && |p| > 1
    ensures WalkCost(t, p[..|p| - 1], c[..|p| - 1]) < WalkCost(t, p, c)
  {
  }

  /** Finds the demuxer or filtergraph upstream of `src`. */
  method SrcFiltergraph(g: Graph, src: Node) returns (r: Node)
    requires Wired(g) && IsSource(g, src) && Ends(g, src)
    ensures r == Origin(g, src)
  {
    r := src;
    while r.kind != DEMUX && r.kind != FILTER_OUT
      invariant IsSource(g, r) && Ends(g, r) && Origin(g, r) == Origin(g, src)
      decreases Depth(g, r)
    {
      DepthUp(g, r);
      if r.kind == DEC {
        r := g.dec[r.idx].src;
      } else {
        r := g.enc[r.idx].src;
      }
    }
  }

  /** The filtergraph upstream of input `j` of filtergraph `f`. */
  method UpstreamFilter(g: Graph, ghost t: Feeders, f: nat, j: nat) returns (r: Option<nat>)
    requires Ready(g) && t == FeedersOf(g) && f < |t| && j < |t[f]|
    ensures r == t[f][j]
  {
    InputIsSource(g, f, j);
    var node := SrcFiltergraph(g, g.filters[f].inputs[j]);
    assert t[f][j] == Feeder(g, f, j);
    if node.kind == DEMUX {
      return None;
    }
    return Some(node.idx);
  }

  /** The walk and the cursors as the stack and the current position hold them. */
  ghost predicate Holds(stack: seq<Node>, src: Node, p: seq<nat>, c: seq<nat>) {
    && |p| == |c| == |stack| + 1
    && (forall a | 0 <= a < |stack| :: stack[a] == Node(NONE, p[a], c[a]))
    && src == Node(NONE, p[|stack|], c[|stack|])
  }

  /** Only the nodes of the walk are marked as started, all of them but perhaps the
      last, which is marked when the loop comes to it. */
  ghost predicate Marks(v: seq<Visit>, p: seq<nat>) {
    && |p| > 0 && (forall a | 0 <= a < |p| :: p[a] < |v|)
    && (forall h | 0 <= h < |v| && v[h] == STARTED :: h in p)
    && (forall a | 0 <= a < |p| - 1 :: v[p[a]] == STARTED)
  }

  lemma MarkPush(v: seq<Visit>, p: seq<nat>, h: nat)
    requires Marks(v, p) && v[p[|p| - 1]] == STARTED && h < |v|
    ensures Marks(v, p + [h])
  {
    forall x: nat | x < |v| && v[x] == STARTED ensures x in p + [h] {
      assert x in p;
    }
  }

  lemma MarkPop(v: seq<Visit>, p: seq<nat>)
    requires Marks(v, p) && Distinct(p) && |p| > 1
    ensures Marks(v[p[|p| - 1] := DONE], p[..|p| - 1])
  {
    var v' := v[p[|p| - 1] := DONE];
    forall h: nat | h < |v| && v'[h] == STARTED ensures h in p[..|p| - 1] {
      assert h in p;
    }
  }

  /** The state of the search loop: the stack, the current position and the marks
      together hold a walk `p` with cursors `c`. */
  ghost predicate At(t: Feeders, start: nat, stack: seq<Node>, src: Node, v: seq<Visit>,
                     p: seq<nat>, c: seq<nat>)
    requires InRange(t)
  {
    |v| == |t| && Searching(t, start, p, c) && Holds(stack, src, p, c) && Marks(v, p)
  }

  lemma MarkCurrent(t: Feeders, start: nat, stack: seq<Node>, src: Node, v: seq<Visit>,
                    p: seq<nat>, c: seq<nat>)
    requires InRange(t) && At(t, start, stack, src, v, p, c)
    ensures src.idx < |t| && src.stream <= |t[src.idx]|
    ensures At(t, start, stack, src, v[src.idx := STARTED], p, c)
  {
    var v' := v[src.idx := STARTED];
    forall h: nat | h < |v'| && v'[h] == STARTED ensures h in p {
      assert h == p[|p| - 1] || v[h] == STARTED;
    }
  }

  lemma Skip(t: Feeders, start: nat, stack: seq<Node>, src: Node, v: seq<Visit>,
             p: seq<nat>, c: seq<nat>)
    requires InRange(t) && At(t, start, stack, src, v, p, c)
    requires src.stream < |t[src.idx]| && t[src.idx][src.stream] == None
    ensures var c' := c[|p| - 1 := c[|p| - 1] + 1];
      At(t, start, stack, src.(stream := src.stream + 1), v, p, c') && WalkCost(t, p, c') < WalkCost(t, p, c)
  {
    Advance(t, start, p, c);
    AdvanceCost(t, start, p, c);
  }

  lemma MeetsItself(t: Feeders, start: nat, stack: seq<Node>, src: Node, v: seq<Visit>,
                    p: seq<nat>, c: seq<nat>)
    requires InRange(t) && At(t, start, stack, src, v, p, c)
    requires src.stream < |t[src.idx]| && t[src.idx][src.stream].Some?
    requires v[t[src.idx][src.stream].value] == STARTED
    ensures HasCycle(t) && !Bounded(t, start, |t|)
  {
    var a :| 0 <= a < |p| && p[a] == t[src.idx][src.stream].value;
    FoundCycle(t, start, p, c, a);
  }

  lemma Push(t: Feeders, start: nat, stack: seq<Node>, src: Node, v: seq<Visit>,
             p: seq<nat>, c: seq<nat>, h: nat)
    requires InRange(t) && At(t, start, stack, src, v, p, c) && v[src.idx] == STARTED
    requires src.stream < |t[src.idx]| && t[src.idx][src.stream] == Some(h) && v[h] != STARTED
    ensures var c' := c[|p| - 1 := c[|p| - 1] + 1] + [0];
      && At(t, start, stack + [src.(stream := src.stream + 1)], Node(NONE, h, 0), v, p + [h], c')
      && WalkCost(t, p + [h], c') < WalkCost(t, p, c)
    ensures |stack| + 1 < |t|
  {
    forall a | 0 <= a < |p| ensures p[a] != h {
      assert v[p[a]] == STARTED;
    }
    Descend(t, start, p, c, h);
    DescendCost(t, start, p, c, h);
    MarkPush(v, p, h);
  }

  lemma Pop(t: Feeders, start: nat, stack: seq<Node>, src: Node, v: seq<Visit>,
            p: seq<nat>, c: seq<nat>)
    requires InRange(t) && At(t, start, stack, src, v, p, c) && |stack| > 0
    requires src.stream == |t[src.idx]|
    ensures var p', c' := p[..|p| - 1], c[..|p| - 1];
      && At(t, start, stack[..|stack| - 1], stack[|stack| - 1], v[src.idx := DONE], p', c')
      && WalkCost(t, p', c') < WalkCost(t, p, c)
  {
    Finish(t, start, p, c);
    PopCost(t, start, p, c);
    MarkPop(v, p);
  }

  method EnterFilter(ghost t: Feeders, ghost start: nat, visited: array<Visit>,
                     ghost lower: seq<Node>, src: Node, ghost p: seq<nat>, ghost c: seq<nat>)
    requires InRange(t) && visited.Length == |t| && At(t, start, lower, src, visited[..], p, c)
    modifies visited
    ensures src.idx < |t| && src.stream <= |t[src.idx]| && visited[src.idx] == STARTED
    ensures At(t, start, lower, src, visited[..], p, c)
  {
    MarkCurrent(t, start, lower, src, visited[..], p, c);
    visited[src.idx] := STARTED;
  }

  /** Looks at the next input of the current filtergraph: passes over it, descends
      into the filtergraph feeding it, or finds a cycle. */
  method VisitInput(ghost t: Feeders, ghost start: nat, feeder: Option<nat>, visited: array<Visit>,
                    stack: array<Node>, nb: nat, src: Node, ghost p: seq<nat>, ghost c: seq<nat>)
    returns (cycle: bool, nb': nat, src': Node, ghost p': seq<nat>, ghost c': seq<nat>)
    requires InRange(t) && visited.Length == stack.Length == |t|
    requires nb < |t| && At(t, start, stack[..nb], src, visited[..], p, c)
    requires src.idx < |t| && visited[src.idx] == STARTED
    requires src.stream < |t[src.idx]| && feeder == t[src.idx][src.stream]
    modifies stack
    ensures cycle ==> HasCycle(t) && !Bounded(t, start, |t|)
    ensures !cycle ==> nb' < |t| && At(t, start, stack[..nb'], src', visited[..], p', c')
    ensures !cycle ==> WalkCost(t, p', c') < WalkCost(t, p, c)
  {
    hide Searching, Marks, HasCycle, Bounded;
    cycle, nb', src' := false, nb, src.(stream := src.stream + 1);
    p', c' := p, c[|p| - 1 := c[|p| - 1] + 1];
    ghost var lower, v := stack[..nb], visited[..];
    if feeder == None {
      Skip(t, start, lower, src, v, p, c);
      return;
    }
    var h := feeder.value;
    if visited[h] == STARTED {
      MeetsItself(t, start, lower, src, v, p, c);
      cycle := true;
      return;
    }
    Push(t, start, lower, src, v, p, c, h);
    PlaceOnStack(stack, nb, src');
    p', c' := p' + [h], c' + [0];
    nb', src' := nb + 1, Node(NONE, h, 0);
  }

  /** Finds what feeds the next input of the current filtergraph, and goes there. */
  method VisitUpstream(g: Graph, ghost t: Feeders, ghost start: nat, visited: array<Visit>,
                       stack: array<Node>, nb: nat, src: Node, ghost p: seq<nat>, ghost c: seq<nat>)
    returns (cycle: bool, nb': nat, src': Node, ghost p': seq<nat>, ghost c': seq<nat>)
    requires Ready(g) && t == FeedersOf(g) && visited.Length == stack.Length == |t|
    requires nb < |t| && At(t, start, stack[..nb], src, visited[..], p, c)
    requires visited[src.idx] == STARTED && src.stream < |t[src.idx]|
    modifies stack
    ensures cycle ==> HasCycle(t) && !Bounded(t, start, |t|)
    ensures !cycle ==> nb' < |t| && At(t, start, stack[..nb'], src', visited[..], p', c')
    ensures !cycle ==> WalkCost(t, p', c') < WalkCost(t, p, c)
  {
    var feeder := UpstreamFilter(g, t, src.idx, src.stream);
    cycle, nb', src', p', c' := VisitInput(t, start, feeder, visited, stack, nb, src, p, c);
  }

  method PlaceOnStack(stack: array<Node>, nb: nat, src: Node)
    requires nb < stack.Length
    modifies stack
    ensures stack[..nb + 1] == old(stack[..nb]) + [src]
  {
    stack[nb] := src;
  }

  /** Returns from a finished filtergraph to the one it was reached from. */
  method LeaveFilter(ghost t: Feeders, ghost start: nat, visited: array<Visit>,
                     stack: array<Node>, nb: nat, src: Node, ghost p: seq<nat>, ghost c: seq<nat>)
    returns (nb': nat, src': Node, ghost p': seq<nat>, ghost c': seq<nat>)
    requires InRange(t) && visited.Length == stack.Length == |t|
    requires 0 < nb < |t| && At(t, start, stack[..nb], src, visited[..], p, c)
    requires src.stream == |t[src.idx]|
    modifies visited
    ensures nb' < |t| && At(t, start, stack[..nb'], src', visited[..], p', c')
    ensures WalkCost(t, p', c') < WalkCost(t, p, c)
  {
    Pop(t, start, stack[..nb], src, visited[..], p, c);
    visited[src.idx] := DONE;
    p', c' := p[..|p| - 1], c[..|p| - 1];
    nb' := nb - 1;
    assert stack[..nb][..nb'] == stack[..nb'];
    src' := stack[nb'];
  }

  method ForgetVisits(visited: array<Visit>)
    modifies visited
    ensures forall h | 0 <= h < visited.Length :: visited[h] == NEW
  {
    for i := 0 to visited.Length
      invariant forall h | 0 <= h < i :: visited[h] == NEW
    {
      visited[i] := NEW;
    }
  }

  lemma Begin(t: Feeders, start: nat, stack: seq<Node>, v: seq<Visit>)
    requires InRange(t) && start < |t| == |v| && stack == []
    requires forall h | 0 <= h < |v| :: v[h] == NEW
    ensures At(t, start, stack, Node(NONE, start, 0), v, [start], [0])
  {
  }

  /** Walks upstream from filtergraph `start`; false when it meets a node that is
      already on the walk. */
  method CheckAcyclicForOutput(g: Graph, ghost t: Feeders, start: nat,
                               visited: array<Visit>, stack: array<Node>)
    returns (ok: bool)
    requires Ready(g) && t == FeedersOf(g) && start < |t|
    requires visited.Length == stack.Length == |t|
    modifies visited, stack
    ensures ok <==> Bounded(t, start, |t|)
    ensures !ok ==> HasCycle(t)
  {
    hide Marks, HasCycle, Bounded, FeedersOf;
    ForgetVisits(visited);
    ghost var p, c := [start], [0];
    var nb := 0;
    var src := Node(NONE, start, 0);
    Begin(t, start, stack[..0], visited[..]);
    while true
      invariant 0 <= nb < stack.Length
      invariant At(t, start, stack[..nb], src, visited[..], p, c)
      decreases WalkCost(t, p, c)
    {
      EnterFilter(t, start, visited, stack[..nb], src, p, c);

      if src.stream < |g.filters[src.idx].inputs| {
        var cycle;
        cycle, nb, src, p, c := VisitUpstream(g, t, start, visited, stack, nb, src, p, c);
        if cycle {
          return false;
        }
      } else if nb > 0 {
        nb, src, p, c := LeaveFilter(t, start, visited, stack, nb, src, p, c);
      } else {
        Finish(t, start, p, c);
        return true;
      }
    }
  }

  /** True exactly when no filtergraph is upstream of itself. */
  method CheckAcyclic(g: Graph) returns (ok: bool)
    requires Ready(g)
    ensures ok <==> !HasCycle(FeedersOf(g))
    ensures ok <==> IsAcyclic(FeedersOf(g))
  {
    ghost var t := FeedersOf(g);
    ok := CheckEveryFilter(g, t);
    AcyclicIff(t);
  }

  ghost predicate BoundedBelow(t: Feeders, i: nat)
    requires InRange(t) && i <= |t|
  {
    forall f: nat | f < i :: Bounded(t, f, |t|)
  }

  lemma OneMoreBounded(t: Feeders, i: nat)
    requires InRange(t) && i < |t| && BoundedBelow(t, i) && Bounded(t, i, |t|)
    ensures BoundedBelow(t, i + 1)
  {
  }

  method CheckEveryFilter(g: Graph, ghost t: Feeders) returns (ok: bool)
    requires Ready(g) && t == FeedersOf(g)
    ensures ok ==> IsAcyclic(t)
    ensures !ok ==> HasCycle(t)
  {
    if |g.filters| == 0 {
      return true;
    }
    var visited := new Visit[|g.filters|];
    var stack := new Node[|g.filters|];
    for i := 0 to |g.filters|
      invariant BoundedBelow(t, i)
    {
      ok := CheckAcyclicForOutput(g, t, i, visited, stack);
      if !ok {
        return;
      }
      assert BoundedBelow(t, i + 1) by {
        OneMoreBounded(t, i);
      }
    }
    return true;
  }
}
