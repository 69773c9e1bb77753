/** What the pass learns about a graph before it emits anything: positions, the dominator tree,
    loop headers, merge nodes, and the rejection of irreducible graphs. */
module Shapes {
  import opened Cfgs
  import opened Dominators
  import opened Rpo
  import opened Wrappers

  datatype Shape = Shape(
    pos: seq<nat>,
    idom: seq<int>,
    domChildren: seq<seq<nat>>,
    isLoopHeader: seq<bool>,
    isMerge: seq<bool>)

  datatype ShapeResult = Accepted(shape: Shape) | Unreached | Irreducible(u: nat, v: nat)

  /** The number of edges into `v` from blocks placed before it. */
  function ForwardPreds(pos: seq<nat>, ps: seq<nat>, v: nat): nat
  {
    if ps == [] then 0
    else (if ps[0] < |pos| && v < |pos| && pos[ps[0]] < pos[v] then 1 else 0) + ForwardPreds(pos, ps[1..], v)
  }

  /** `cs` lists the dominator-tree children of `x`, earliest first. */
  ghost predicate ChildrenOf(pos: seq<nat>, idom: seq<int>, x: nat, cs: seq<nat>) {
    && (forall c: nat :: c in cs <==> 0 < c < |idom| && idom[c] == x)
    && SortedByPos(pos, cs)
  }

  ghost predicate RetreatTarget(g: Cfg, pos: seq<nat>, v: nat) {
    exists u :: Retreating(g, pos, u, v)
  }

  /** An edge to a block placed no later than its source. */
  predicate Retreating(g: Cfg, pos: seq<nat>, u: nat, v: nat) {
    g.Edge(u, v) && u < |pos| && v < |pos| && pos[v] <= pos[u]
  }

  /** The shape of `g` over a given order, with every retreating edge a back edge. */
  ghost predicate ShapeOf(g: Cfg, order: seq<nat>, s: Shape) {
    && WellFormed(g) && Ordered(g, order, s.pos) && DominatorTree(g, s.pos, s.idom)
    && |s.domChildren| == |s.isLoopHeader| == |s.isMerge| == g.N()
    && (forall u, v :: Retreating(g, s.pos, u, v) ==> Dominates(g, v, u))
    && (forall v :: 0 <= v < g.N() ==> (s.isLoopHeader[v] <==> RetreatTarget(g, s.pos, v)))
    && (forall v :: 0 <= v < g.N() ==> (s.isMerge[v] <==> ForwardPreds(s.pos, g.preds[v], v) >= 2))
    && (forall x :: 0 <= x < g.N() ==> ChildrenOf(s.pos, s.idom, x, s.domChildren[x]))
  }

  // --- reducibility ------------------------------------------------------------------

  lemma OrderOfRpo(g: Cfg, order: seq<nat>, pos: seq<nat>)
    requires WellFormed(g) && IsRpo(g, order) && |order| == g.N() == |pos|
    requires forall i :: 0 <= i < |order| ==> order[i] < |pos| && pos[order[i]] == i
    ensures Ordered(g, order, pos)
  {
    forall b | 0 <= b < g.N() ensures pos[b] < g.N() && order[pos[b]] == b {
      PigeonHole(order, g.N(), b);
      var i :| 0 <= i < |order| && order[i] == b;
    }
    forall b | 0 < b < g.N() ensures Preceded(g, pos, b) {
      assert order[pos[b]] == b;
      var j :| 0 <= j < pos[b] && g.Edge(order[j], order[pos[b]]);
      assert HasEarlierPred(g, pos, order[j], b);
    }
  }

  function Range(n: nat): (r: set<nat>)
    ensures |r| == n && forall i: nat :: i in r <==> i < n
  {
    if n == 0 then {} else Range(n - 1) + {n - 1}
  }

  function Elements(s: seq<nat>): (r: set<nat>)
    ensures forall x: nat :: x in r <==> x in s
    ensures Distinct(s) ==> |r| == |s|
  {
    if s == [] then {}
    else
      assert s == s[..|s| - 1] + [s[|s| - 1]];
      Elements(s[..|s| - 1]) + {s[|s| - 1]}
  }

  /** `n` distinct numbers below `n` are all of them. */
  lemma PigeonHole(s: seq<nat>, n: nat, b: nat)
    requires |s| == n && Distinct(s) && (forall x :: x in s ==> x < n) && b < n
    ensures b in s
  {
    if b !in s {
      SubsetSize(Elements(s), Range(n) - {b});
    }
  }

  lemma AscentIsForward(g: Cfg, order: seq<nat>, pos: seq<nat>, a: nat, b: nat)
    requires WellFormed(g) && Ordered(g, order, pos) && Before(order, a, b)
    ensures !BackEdge(g, a, b) && a < g.N() && b < g.N() && pos[a] < pos[b]
  {
    if Dominates(g, b, a) {
      DominatorIsEarlier(g, order, pos, b, a);
    }
  }

  /** Closing an ascent by an edge that is no back edge gives a cycle without back edges. */
  lemma AscentCloses(g: Cfg, order: seq<nat>, pos: seq<nat>, p: seq<nat>, u: nat, v: nat)
    requires WellFormed(g) && Ordered(g, order, pos) && Ascent(g, order, p, v, u)
    requires g.Edge(u, v) && !Dominates(g, v, u)
    ensures ForwardCycle(g, p + [v])
  {
    var q := p + [v];
    forall i | 0 < i < |q| ensures g.Edge(q[i - 1], q[i]) && !BackEdge(g, q[i - 1], q[i]) {
      if i < |p| {
        AscentIsForward(g, order, pos, p[i - 1], p[i]);
        assert q[i - 1] == p[i - 1] && q[i] == p[i];
      }
    }
  }

  /** A retreating edge whose target does not dominate its source makes the graph irreducible. */
  lemma BadEdgeIsIrreducible(g: Cfg, order: seq<nat>, pos: seq<nat>, u: nat, v: nat)
    requires WellFormed(g) && Ordered(g, order, pos) && IsRpo(g, order)
    requires Retreating(g, pos, u, v) && !Dominates(g, v, u)
    ensures !Reducible(g)
  {
    assert order[pos[u]] == u;
    assert !Before(order, u, v);
    var p :| Ascent(g, order, p, v, u);
    AscentCloses(g, order, pos, p, u, v);
  }

  lemma {:induction false} ForwardClimbs(g: Cfg, order: seq<nat>, pos: seq<nat>, p: seq<nat>, i: nat)
    requires WellFormed(g) && Ordered(g, order, pos) && ForwardCycle(g, p) && 0 < i < |p|
    requires forall u, v :: Retreating(g, pos, u, v) ==> Dominates(g, v, u)
    ensures pos[p[0]] < pos[p[i]]
  {
    assert !BackEdge(g, p[i - 1], p[i]) && g.Edge(p[i - 1], p[i]);
    assert !Retreating(g, pos, p[i - 1], p[i]);
    if i > 1 {
      ForwardClimbs(g, order, pos, p, i - 1);
    }
  }

  lemma GoodEdgesAreReducible(g: Cfg, order: seq<nat>, pos: seq<nat>)
    requires WellFormed(g) && Ordered(g, order, pos)
    requires forall u, v :: Retreating(g, pos, u, v) ==> Dominates(g, v, u)
    ensures Reducible(g)
  {
    forall p ensures !ForwardCycle(g, p) {
      if ForwardCycle(g, p) {
        ForwardClimbs(g, order, pos, p, |p| - 1);
      }
    }
  }

  // --- building the shape ------------------------------------------------------------

  lemma {:induction false} CountPrefix(pos: seq<nat>, ps: seq<nat>, v: nat, i: nat)
    requires i < |ps|
    ensures ForwardPreds(pos, ps[..i + 1], v) ==
            ForwardPreds(pos, ps[..i], v) + if ps[i] < |pos| && v < |pos| && pos[ps[i]] < pos[v] then 1 else 0
  {
    if i == 0 {
      assert ps[..1] == [ps[0]] && ps[..0] == [];
    } else {
      CountPrefix(pos, ps[1..], v, i - 1);
      assert ps[..i + 1][1..] == ps[1..][..i] && ps[..i][1..] == ps[1..][..i - 1];
    }
  }

  method CountForward(pos: seq<nat>, ps: seq<nat>, v: nat) returns (fwd: nat)
    requires v < |pos| && forall p :: p in ps ==> p < |pos|
    ensures fwd == ForwardPreds(pos, ps, v)
  {
    fwd := 0;
    for i := 0 to |ps|
      invariant fwd == ForwardPreds(pos, ps[..i], v)
    {
      CountPrefix(pos, ps, v, i);
      assert ps[i] in ps;
      if pos[ps[i]] < pos[v] { fwd := fwd + 1; }
    }
    assert ps[..|ps|] == ps;
  }

  predicate SortedByPos(pos: seq<nat>, cs: seq<nat>) {
    && (forall i :: 0 <= i < |cs| ==> cs[i] < |pos|)
    && (forall i, j :: 0 <= i < j < |cs| ==> pos[cs[i]] < pos[cs[j]])
  }

  lemma InsertionIsSorted(pos: seq<nat>, cs: seq<nat>, k: nat, c: nat)
    requires SortedByPos(pos, cs) && c < |pos| && k <= |cs|
    requires forall i :: 0 <= i < k ==> pos[cs[i]] < pos[c]
    requires forall i :: k <= i < |cs| ==> pos[c] < pos[cs[i]]
    ensures SortedByPos(pos, Insert(cs, k, c))
  {
    var r := Insert(cs, k, c);
    forall i | 0 <= i < |r| ensures r[i] < |pos| {
      assert r[i] == if i < k then cs[i] else if i == k then c else cs[i - 1];
    }
    forall i, j | 0 <= i < j < |r| ensures pos[r[i]] < pos[r[j]] {
      assert r[i] == if i < k then cs[i] else if i == k then c else cs[i - 1];
      assert r[j] == if j < k then cs[j] else if j == k then c else cs[j - 1];
    }
  }

  /** Insert `c` into a list ordered by position. */
  method InsertByPos(pos: seq<nat>, cs: seq<nat>, c: nat) returns (r: seq<nat>)
    requires Injective(pos) && c < |pos| && c !in cs && SortedByPos(pos, cs)
    ensures (forall x: nat :: x in r <==> x in cs || x == c) && SortedByPos(pos, r)
  {
    var k: nat := |cs|;
    while 0 < k && pos[c] < pos[cs[k - 1]]
      invariant k <= |cs|
      invariant forall i :: k <= i < |cs| ==> pos[c] < pos[cs[i]]
    {
      k := k - 1;
    }
    assert 0 < k ==> cs[k - 1] in cs && pos[cs[k - 1]] < pos[c];
    InsertionIsSorted(pos, cs, k, c);
    r := Insert(cs, k, c);
    forall x: nat ensures x in r <==> x in cs || x == c {
      InsertKeepsMembers(cs, k, c, x);
    }
  }

  ghost predicate ChildrenBelow(pos: seq<nat>, idom: seq<int>, b: nat, x: nat, cs: seq<nat>)
    requires b <= |idom|
  {
    (forall c: nat :: c in cs <==> 0 < c < b && idom[c] == x) && SortedByPos(pos, cs)
  }

  /** The children lists, each kept sorted by position. */
  method BuildChildren(pos: seq<nat>, idom: seq<int>) returns (kids: seq<seq<nat>>)
    requires Injective(pos) && |pos| == |idom| && forall b :: 0 < b < |idom| ==> 0 <= idom[b] < |idom|
    ensures |kids| == |idom| && forall x :: 0 <= x < |kids| ==> ChildrenOf(pos, idom, x, kids[x])
  {
    kids := seq(|idom|, (i: nat) => []);
    for b := 0 to |idom|
      invariant |kids| == |idom|
      invariant forall x :: 0 <= x < |kids| ==> ChildrenBelow(pos, idom, b, x, kids[x])
    {
      ghost var before := kids;
      if b != 0 {
        assert ChildrenBelow(pos, idom, b, idom[b], kids[idom[b]]);
        var cs := InsertByPos(pos, kids[idom[b]], b);
        kids := kids[idom[b] := cs];
      }
      forall x | 0 <= x < |kids| ensures ChildrenBelow(pos, idom, b + 1, x, kids[x]) {
        assert ChildrenBelow(pos, idom, b, x, before[x]);
      }
    }
    forall x | 0 <= x < |kids| ensures ChildrenOf(pos, idom, x, kids[x]) {
      assert ChildrenBelow(pos, idom, |idom|, x, kids[x]);
    }
  }

  /** Positions from the order. */
  method Positions(order: seq<nat>, n: nat) returns (pos: seq<nat>)
    requires Distinct(order) && |order| == n && forall x :: x in order ==> x < n
    ensures |pos| == n && forall i :: 0 <= i < n ==> order[i] < n && pos[order[i]] == i
  {
    pos := seq(n, (i: nat) => 0);
    for p := 0 to n
      invariant |pos| == n && forall i :: 0 <= i < p ==> order[i] < n && pos[order[i]] == i
    {
      assert order[p] in order;
      pos := pos[order[p] := p];
    }
  }

  /** A retreating edge is marked at its target and checked for dominance. */
  ghost predicate Checked(g: Cfg, pos: seq<nat>, isLoopHeader: seq<bool>, u: nat, v: nat) {
    Retreating(g, pos, u, v) ==> v < |isLoopHeader| && isLoopHeader[v] && Dominates(g, v, u)
  }

  ghost predicate OnlyTargets(g: Cfg, pos: seq<nat>, isLoopHeader: seq<bool>) {
    |isLoopHeader| == g.N() && forall v :: 0 <= v < g.N() && isLoopHeader[v] ==> RetreatTarget(g, pos, v)
  }

  /** The edges out of `u`: mark the targets of retreating ones, or stop at the first whose target
      does not dominate `u`. */
  method CheckEdges(g: Cfg, pos: seq<nat>, idom: seq<int>, u: nat, marked: seq<bool>)
    returns (isLoopHeader: seq<bool>, bad: Option<(nat, nat)>)
    requires WellFormed(g) && DominatorTree(g, pos, idom) && Injective(pos) && pos[0] == 0 && u < g.N()
    requires OnlyTargets(g, pos, marked)
    ensures OnlyTargets(g, pos, isLoopHeader) && forall v :: 0 <= v < g.N() && marked[v] ==> isLoopHeader[v]
    ensures bad.Some? ==> var (u, v) := bad.value; Retreating(g, pos, u, v) && !Dominates(g, v, u)
    ensures bad.None? ==> forall v: nat :: Checked(g, pos, isLoopHeader, u, v)
  {
    isLoopHeader, bad := marked, None;
    for k := 0 to |g.succs[u]|
      invariant OnlyTargets(g, pos, isLoopHeader) && forall v :: 0 <= v < g.N() && marked[v] ==> isLoopHeader[v]
      invariant forall i :: 0 <= i < k ==> Checked(g, pos, isLoopHeader, u, g.succs[u][i])
    {
      var v := g.succs[u][k];
      assert v in g.succs[u];
      if pos[v] <= pos[u] {
        assert Retreating(g, pos, u, v);
        var dom := DominatesBlock(g, idom, pos, v, u);
        if !dom {
          bad := Some((u, v));
          return;
        }
        isLoopHeader := isLoopHeader[v := true];
      }
    }
  }

  /** Mark the loop headers, or report a retreating edge whose target does not dominate its source. */
  method FindLoopHeaders(g: Cfg, order: seq<nat>, pos: seq<nat>, idom: seq<int>)
    returns (isLoopHeader: seq<bool>, bad: Option<(nat, nat)>)
    requires WellFormed(g) && Ordered(g, order, pos) && DominatorTree(g, pos, idom)
    ensures bad.Some? ==> var (u, v) := bad.value; Retreating(g, pos, u, v) && !Dominates(g, v, u)
    ensures bad.None? ==>
              OnlyTargets(g, pos, isLoopHeader) && forall u: nat, v: nat :: Checked(g, pos, isLoopHeader, u, v)
  {
    isLoopHeader, bad := seq(g.N(), (i: nat) => false), None;
    OrderIsInjective(g, order, pos);
    for u := 0 to g.N()
      invariant OnlyTargets(g, pos, isLoopHeader) && bad.None?
      invariant forall u': nat, v: nat :: u' < u ==> Checked(g, pos, isLoopHeader, u', v)
    {
      ghost var marked := isLoopHeader;
      isLoopHeader, bad := CheckEdges(g, pos, idom, u, isLoopHeader);
      if bad.Some? { return; }
      forall u': nat, v: nat | u' <= u ensures Checked(g, pos, isLoopHeader, u', v) {
        assert u' < u ==> Checked(g, pos, marked, u', v);
      }
    }
  }

  method FindMerges(g: Cfg, pos: seq<nat>) returns (isMerge: seq<bool>)
    requires WellFormed(g) && |pos| == g.N()
    ensures |isMerge| == g.N() && forall v :: 0 <= v < g.N() ==> (isMerge[v] <==> ForwardPreds(pos, g.preds[v], v) >= 2)
  {
    isMerge := seq(g.N(), (i: nat) => false);
    for v := 0 to g.N()
      invariant |isMerge| == g.N()
      invariant forall w :: 0 <= w < v ==> (isMerge[w] <==> ForwardPreds(pos, g.preds[w], w) >= 2)
      invariant forall w :: v <= w < g.N() ==> !isMerge[w]
    {
      var fwd := CountForward(pos, g.preds[v], v);
      if fwd >= 2 { isMerge := isMerge[v := true]; }
    }
  }

  /** Accepts exactly the reducible graphs all of whose blocks are reachable. */
  method NewShape(g: Cfg) returns (r: ShapeResult, ghost order: seq<nat>)
    requires WellFormed(g)
    ensures r.Accepted? <==> Reducible(g) && forall b :: 0 <= b < g.N() ==> Reachable(g, b)
    ensures r.Unreached? <==> exists b :: 0 <= b < g.N() && !Reachable(g, b)
    ensures r.Accepted? ==> ShapeOf(g, order, r.shape)
  {
    hide Reachable, Reducible, Dominates, IsRpo, Ordered, DominatorTree, Retreating, ForwardPreds, ChildrenOf, RetreatTarget, Distinct, WellFormed;
    order := [];
    var rpo := ReversePostorder(g);
    if |rpo| != g.N() {
      MissingIsUnreachable(g, rpo);
      return Unreached, order;
    }
    order := rpo;
    AllReached(g, order);
    var pos := Positions(rpo, g.N());
    OrderOfRpo(g, order, pos);
    OrderIsInjective(g, order, pos);
    var idom := Idoms(g, rpo, pos);
    var isLoopHeader, bad := FindLoopHeaders(g, rpo, pos, idom);
    if bad.Some? {
      BadEdgeIsIrreducible(g, order, pos, bad.value.0, bad.value.1);
      return Irreducible(bad.value.0, bad.value.1), order;
    }
    HeadersAreTargets(g, pos, isLoopHeader);
    GoodEdgesAreReducible(g, order, pos);
    var isMerge := FindMerges(g, pos);
    ParentsInRange(g, pos, idom);
    var kids := BuildChildren(pos, idom);
    r := Accepted(Shape(pos, idom, kids, isLoopHeader, isMerge));
  }

  lemma AllReached(g: Cfg, order: seq<nat>)
    requires IsRpo(g, order) && |order| == g.N()
    ensures forall b :: 0 <= b < g.N() ==> Reachable(g, b)
    ensures Distinct(order) && forall x :: x in order ==> x < g.N()
  {
    forall b | 0 <= b < g.N() ensures Reachable(g, b) {
      PigeonHole(order, g.N(), b);
    }
  }

  lemma HeadersAreTargets(g: Cfg, pos: seq<nat>, isLoopHeader: seq<bool>)
    requires OnlyTargets(g, pos, isLoopHeader) && forall u: nat, v: nat :: Checked(g, pos, isLoopHeader, u, v)
    ensures forall u, v :: Retreating(g, pos, u, v) ==> Dominates(g, v, u)
    ensures |isLoopHeader| == g.N() && forall v: nat :: v < g.N() ==> (isLoopHeader[v] <==> RetreatTarget(g, pos, v))
  {
    hide Dominates;
    forall u: nat, v: nat | Retreating(g, pos, u, v) ensures Dominates(g, v, u) && v < |isLoopHeader| && isLoopHeader[v] {
      assert Checked(g, pos, isLoopHeader, u, v);
    }
  }

  lemma ParentsInRange(g: Cfg, pos: seq<nat>, idom: seq<int>)
    requires DominatorTree(g, pos, idom)
    ensures |pos| == |idom| == g.N() && forall b :: 0 < b < |idom| ==> 0 <= idom[b] < |idom|
  {
    forall b | 0 < b < |idom| ensures 0 <= idom[b] < |idom| {
      assert ParentEarlier(pos, idom, b) && Defined(idom, b);
    }
  }

  lemma MissingIsUnreachable(g: Cfg, order: seq<nat>)
    requires WellFormed(g) && IsRpo(g, order) && |order| != g.N()
    ensures exists b :: 0 <= b < g.N() && !Reachable(g, b)
  {
    if forall b: nat :: b < g.N() ==> b in order {
      SubsetSize(Range(g.N()), Elements(order));
      SubsetSize(Elements(order), Range(g.N()));
      assert false;
    }
  }
}
