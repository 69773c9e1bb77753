/** What a method's IR means, read off its nodes: which block comes next, and what the phis of a block take. */
module IrRuns {
  import opened Wrappers
  import opened Cfgs
  import opened Fixtures
  import G = Structured

  function LastNode(fx: Fixture, x: nat): Node
    requires x < |fx.blocks| && 1 <= fx.blocks[x].last <= |fx.stmts|
  {
    fx.stmts[fx.blocks[x].last - 1].node
  }

  /** The block that follows `x` when its statements have left state `s`: where a condition holds the next one in the
      text, where it does not the one named; a block without a terminator goes to its successor.  None after a
      return. */
  function Following<W>(fx: Fixture, g: Cfg, s: State<W>, x: nat): Option<int>
    requires x < |fx.blocks| && 1 <= fx.blocks[x].last <= |fx.stmts| && x < g.N()
  {
    match LastNode(fx, x)
    case GotoIfNot(cond, dest) => Some(if Eval(s, cond) != I32(0) then x + 1 else dest - 1)
    case Goto(dest) => Some(dest - 1)
    case Return(_) => None
    case _ => Some(if g.succs[x] == [] then -1 else g.succs[x][0])
  }

  /** The first value listed for the edge from block `x` is the `j`th. */
  ghost predicate Listed(n: Node, x: nat, j: nat) {
    && n.Phi? && j < |n.edges| && j < |n.values| && n.edges[j] == x + 1
    && forall k :: 0 <= k < j ==> n.edges[k] != x + 1
  }

  predicate InBlock(fx: Fixture, t: nat, i: nat)
    requires t < |fx.blocks|
  {
    fx.blocks[t].first <= i + 1 <= fx.blocks[t].last
  }

  /** Statement `i` after control has passed from `x` to `t`: a phi of `t` has the value listed for that edge, as it was
      before the edge was taken. */
  ghost function PhiTaken<W>(fx: Fixture, s: State<W>, x: nat, t: nat, i: nat): Val
    requires t < |fx.blocks| && i < |fx.stmts| == |s.vals|
  {
    if InBlock(fx, t, i) && exists j: nat :: Listed(fx.stmts[i].node, x, j) then
      var j: nat :| Listed(fx.stmts[i].node, x, j);
      Eval(s, fx.stmts[i].node.values[j])
    else s.vals[i]
  }

  ghost function Passed<W>(fx: Fixture, s: State<W>, x: nat, t: nat): (r: State<W>)
    requires t < |fx.blocks| && |fx.stmts| == |s.vals|
    ensures |r.vals| == |s.vals|
  {
    s.(vals := seq(|s.vals|, i requires 0 <= i < |s.vals| => PhiTaken(fx, s, x, t, i)))
  }

  /** Run up to `n` blocks from block `x`; a jump out of the method goes nowhere. */
  ghost function RunIr<W>(h: Host<W>, outer: seq<nat>, fx: Fixture, g: Cfg, x: nat, s: State<W>, n: nat): G.GraphRun<State<W>>
    requires |fx.blocks| == g.N() && x < g.N() && |s.vals| == |fx.stmts|
    requires forall b :: 0 <= b < |fx.blocks| ==> 1 <= fx.blocks[b].first <= fx.blocks[b].last <= |fx.stmts|
    decreases n
  {
    if n == 0 then G.GraphRun(G.At(x, s), [])
    else
      var s1 := RunStmts(h, outer, fx, s, fx.blocks[x].first - 1, fx.blocks[x].last);
      var t := Following(fx, g, s1, x);
      if t.None? then G.GraphRun(G.Halted(x, s1), [x])
      else if !(0 <= t.value < g.N()) then G.GraphRun(G.At(x, s1), [x])
      else
        var r := RunIr(h, outer, fx, g, t.value, Passed(fx, s1, x, t.value), n - 1);
        r.(trace := [x] + r.trace)
  }

  /** Some phi of `t` is listed, on the edge from `x`, with a phi of `t`. */
  ghost predicate ReadsOwnPhi(fx: Fixture, x: nat, t: nat)
    requires t < |fx.blocks|
  {
    exists i: nat, j: nat :: i < |fx.stmts| && InBlock(fx, t, i) && Listed(fx.stmts[i].node, x, j) && NamesPhiOf(fx, t, fx.stmts[i].node.values[j])
  }

  predicate NamesPhiOf(fx: Fixture, t: nat, op: Operand)
    requires t < |fx.blocks|
  {
    op.Ssa? && 1 <= op.id <= |fx.stmts| && InBlock(fx, t, op.id - 1) && fx.stmts[op.id - 1].node.Phi?
  }
}
