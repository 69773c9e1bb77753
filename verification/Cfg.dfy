/** Control-flow graphs as the structured-control-flow pass sees them: blocks numbered from 0,
    entry 0, successor and predecessor lists; paths, dominance and reducibility. */
module Cfgs {
  datatype Cfg = Cfg(succs: seq<seq<nat>>, preds: seq<seq<nat>>) {
    function N(): nat { |succs| }

    predicate Edge(u: nat, v: nat) {
      u < N() && v in succs[u]
    }
  }

  /** Block ids are in range and `preds` is the exact multiset inverse of `succs`. */
  ghost predicate WellFormed(g: Cfg) {
    && 0 < g.N() == |g.preds|
    && (forall u, v :: 0 <= u < g.N() && v in g.succs[u] ==> v < g.N())
    && (forall u, v :: 0 <= v < g.N() && u in g.preds[v] ==> u < g.N())
    && (forall u, v :: 0 <= u < g.N() && 0 <= v < g.N() ==>
          multiset(g.succs[u])[v] == multiset(g.preds[v])[u])
  }

  lemma EdgeIffPred(g: Cfg, u: nat, v: nat)
    requires WellFormed(g) && u < g.N() && v < g.N()
    ensures g.Edge(u, v) <==> u in g.preds[v]
  {
    assert v in g.succs[u] <==> multiset(g.succs[u])[v] > 0;
    assert u in g.preds[v] <==> multiset(g.preds[v])[u] > 0;
  }

  /** A nonempty walk along edges. */
  ghost predicate Path(g: Cfg, p: seq<nat>) {
    && 0 < |p|
    && (forall i :: 0 <= i < |p| ==> p[i] < g.N())
    && (forall i :: 0 < i < |p| ==> g.Edge(p[i - 1], p[i]))
  }

  ghost predicate PathTo(g: Cfg, p: seq<nat>, b: nat) {
    Path(g, p) && p[0] == 0 && p[|p| - 1] == b
  }

  /** `a` lies on every path from the entry to `b`. */
  ghost predicate Dominates(g: Cfg, a: nat, b: nat) {
    forall p :: PathTo(g, p, b) ==> a in p
  }

  ghost predicate StrictlyDominates(g: Cfg, a: nat, b: nat) {
    a != b && Dominates(g, a, b)
  }

  ghost predicate Reachable(g: Cfg, b: nat) {
    exists p :: PathTo(g, p, b)
  }

  /** Dominance by a node other than `b` passes to every predecessor of `b`. */
  lemma DominatorOfPred(g: Cfg, d: nat, p: nat, b: nat)
    requires StrictlyDominates(g, d, b) && g.Edge(p, b) && b < g.N()
    ensures Dominates(g, d, p)
  {
    forall q | PathTo(g, q, p) ensures d in q {
      assert PathTo(g, q + [b], b);
    }
  }

  /** `pos` numbers the blocks in `order`, entry first, and every other block has a predecessor
      placed before it.  This is all dominance needs from a reverse postorder. */
  ghost predicate Ordered(g: Cfg, order: seq<nat>, pos: seq<nat>) {
    && 0 < |order| == |pos| == g.N()
    && (forall i :: 0 <= i < |order| ==> order[i] < g.N() && pos[order[i]] == i)
    && (forall b :: 0 <= b < |pos| ==> pos[b] < g.N() && order[pos[b]] == b)
    && order[0] == 0
    && (forall b :: 0 < b < g.N() ==> Preceded(g, pos, b))
  }

  ghost predicate Preceded(g: Cfg, pos: seq<nat>, b: nat) {
    exists p :: HasEarlierPred(g, pos, p, b)
  }

  ghost predicate HasEarlierPred(g: Cfg, pos: seq<nat>, p: nat, b: nat) {
    p < |pos| && b < |pos| && g.Edge(p, b) && pos[p] < pos[b]
  }

  /** Following earlier predecessors back to the entry gives a path through ever smaller positions. */
  lemma {:induction false} DescendingPath(g: Cfg, order: seq<nat>, pos: seq<nat>, b: nat) returns (q: seq<nat>)
    requires WellFormed(g) && Ordered(g, order, pos) && b < g.N()
    ensures PathTo(g, q, b)
    ensures forall i :: 0 <= i < |q| - 1 ==> pos[q[i]] < pos[b]
    decreases pos[b]
  {
    if b == 0 {
      q := [0];
    } else {
      assert Preceded(g, pos, b);
      var p :| HasEarlierPred(g, pos, p, b);
      var q' := DescendingPath(g, order, pos, p);
      q := q' + [b];
    }
  }

  /** A dominator is placed no later than the block it dominates, and only the block itself as late. */
  lemma DominatorIsEarlier(g: Cfg, order: seq<nat>, pos: seq<nat>, d: nat, b: nat)
    requires WellFormed(g) && Ordered(g, order, pos) && b < g.N() && Dominates(g, d, b)
    ensures d < g.N() && pos[d] <= pos[b] && (pos[d] == pos[b] ==> d == b)
  {
    var q := DescendingPath(g, order, pos, b);
    assert d in q;
  }

  /** An edge whose target dominates its source. */
  ghost predicate BackEdge(g: Cfg, u: nat, v: nat) {
    g.Edge(u, v) && Dominates(g, v, u)
  }

  /** A cycle none of whose edges is a back edge. */
  ghost predicate ForwardCycle(g: Cfg, p: seq<nat>) {
    && Path(g, p) && 1 < |p| && p[0] == p[|p| - 1]
    && forall i :: 0 < i < |p| ==> !BackEdge(g, p[i - 1], p[i])
  }

  /** Reducible: removing the back edges leaves no cycle. */
  ghost predicate Reducible(g: Cfg) {
    forall p :: !ForwardCycle(g, p)
  }
}
