/** Walks and cycles in a graph given by the feeder of each input of each node. */
module Digraph {
  import opened Options
  import Topology

  /** feeders[f][j] is the node feeding input j of node f, if a node does. */
  type Feeders = seq<seq<Option<nat>>>

  ghost predicate InRange(t: Feeders) {
    forall f, j | 0 <= f < |t| && 0 <= j < |t[f]| && t[f][j].Some? :: t[f][j].value < |t|
  }

  ghost predicate Edge(t: Feeders, f: nat, h: nat) {
    f < |t| && Some(h) in t[f]
  }

  ghost predicate IsWalk(t: Feeders, w: seq<nat>) {
    forall i | 0 <= i < |w| - 1 :: Edge(t, w[i], w[i + 1])
  }

  ghost predicate IsCycle(t: Feeders, w: seq<nat>) {
    |w| > 1 && IsWalk(t, w) && w[0] == w[|w| - 1]
  }

  ghost predicate HasCycle(t: Feeders) {
    exists w: seq<nat> :: IsCycle(t, w)
  }

  /** Every walk from `f` visits at most `n` nodes. */
  ghost predicate Bounded(t: Feeders, f: nat, n: nat)
    requires InRange(t) && f < |t|
    decreases n
  {
    n > 0 && forall j | 0 <= j < |t[f]| :: t[f][j].Some? ==> Bounded(t, t[f][j].value, n - 1)
  }

  /** No walk visits more nodes than there are. */
  ghost predicate IsAcyclic(t: Feeders)
    requires InRange(t)
  {
    forall f | 0 <= f < |t| :: Bounded(t, f, |t|)
  }

  lemma {:induction false} WalkWithinBound(t: Feeders, w: seq<nat>, n: nat)
    requires InRange(t) && |w| > 0 && w[0] < |t| && IsWalk(t, w) && Bounded(t, w[0], n)
    ensures |w| <= n
    decreases n
  {
    if |w| > 1 {
      assert Edge(t, w[0], w[1]);
      SubWalk(t, w, 1, |w| - 1);
      assert w[1..|w|] == w[1..];
      WalkWithinBound(t, w[1..], n - 1);
    }
  }

  lemma JoinWalks(t: Feeders, u: seq<nat>, w: seq<nat>)
    requires |u| > 0 && |w| > 0 && IsWalk(t, u) && IsWalk(t, w)
    requires u[|u| - 1] == w[0]
    ensures IsWalk(t, u + w[1..])
  {
    var v := u + w[1..];
    forall i | 0 <= i < |v| - 1 ensures Edge(t, v[i], v[i + 1]) {
      if i < |u| - 1 {
        assert Edge(t, u[i], u[i + 1]);
      } else {
        assert Edge(t, w[i - |u| + 1], w[i - |u| + 2]);
      }
    }
  }

  lemma SubWalk(t: Feeders, w: seq<nat>, a: nat, b: nat)
    requires IsWalk(t, w) && a <= b < |w|
    ensures IsWalk(t, w[a..b + 1])
  {
    var v := w[a..b + 1];
    forall i | 0 <= i < |v| - 1 ensures Edge(t, v[i], v[i + 1]) {
      assert Edge(t, w[a + i], w[a + i + 1]);
    }
  }

  /** Going round a cycle again and again. */
  lemma {:induction false} Rounds(t: Feeders, w: seq<nat>, k: nat) returns (v: seq<nat>)
    requires IsCycle(t, w)
    ensures |v| > k && IsWalk(t, v) && v[0] == w[0] == v[|v| - 1]
  {
    if k == 0 {
      v := w;
    } else {
      var u := Rounds(t, w, k - 1);
      JoinWalks(t, u, w);
      v := u + w[1..];
    }
  }

  lemma CycleUnbounded(t: Feeders, u: seq<nat>, w: seq<nat>, n: nat)
    requires InRange(t) && |u| > 0 && u[0] < |t| && IsWalk(t, u)
    requires IsCycle(t, w) && u[|u| - 1] == w[0]
    ensures !Bounded(t, u[0], n)
  {
    if Bounded(t, u[0], n) {
      var v := Rounds(t, w, n);
      JoinWalks(t, u, v);
      WalkWithinBound(t, u + v[1..], n);
    }
  }

  lemma {:induction false} LongWalk(t: Feeders, f: nat, n: nat) returns (w: seq<nat>)
    requires InRange(t) && f < |t| && !Bounded(t, f, n)
    ensures |w| == n + 1 && w[0] == f && IsWalk(t, w)
    ensures forall i | 0 <= i < |w| :: w[i] < |t|
    decreases n
  {
    if n == 0 {
      w := [f];
    } else {
      var j :| 0 <= j < |t[f]| && t[f][j].Some? && !Bounded(t, t[f][j].value, n - 1);
      w := LongWalk(t, t[f][j].value, n - 1);
      JoinWalks(t, [f, w[0]], w);
      w := [f, w[0]] + w[1..];
    }
  }

  /** Bounded walks and absence of cycles are the same thing. */
  lemma AcyclicIff(t: Feeders)
    requires InRange(t)
    ensures IsAcyclic(t) <==> !HasCycle(t)
  {
    if w :| IsCycle(t, w) {
      assert Edge(t, w[0], w[1]);
      CycleUnbounded(t, [w[0]], w, |t|);
    }
    if f :| 0 <= f < |t| && !Bounded(t, f, |t|) {
      var w := LongWalk(t, f, |t|);
      if Topology.Distinct(w) {
        Topology.Pigeonhole(w, |t|);
      }
      var a, b :| 0 <= a < b < |w| && w[a] == w[b];
      SubWalk(t, w, a, b);
      assert IsCycle(t, w[a..b + 1]);
    }
  }

  /** The least bound on the walks from `f`. */
  ghost function Rank(t: Feeders, f: nat): (r: nat)
    requires InRange(t) && IsAcyclic(t) && f < |t|
    ensures r <= |t| && Bounded(t, f, r) && forall n: nat | n < r :: !Bounded(t, f, n)
  {
    LeastBound(t, f, 0)
  }

  ghost function LeastBound(t: Feeders, f: nat, k: nat): (r: nat)
    requires InRange(t) && f < |t| && Bounded(t, f, |t|) && k <= |t|
    requires forall n: nat | n < k :: !Bounded(t, f, n)
    ensures r <= |t| && Bounded(t, f, r) && forall n: nat | n < r :: !Bounded(t, f, n)
    decreases |t| - k
  {
    if Bounded(t, f, k) then k else LeastBound(t, f, k + 1)
  }

  lemma RankDecreases(t: Feeders, f: nat, h: nat)
    requires InRange(t) && IsAcyclic(t) && Edge(t, f, h)
    ensures h < |t| && Rank(t, h) < Rank(t, f)
  {
    var j :| 0 <= j < |t[f]| && t[f][j] == Some(h);
    assert Bounded(t, h, Rank(t, f) - 1);
  }
}
