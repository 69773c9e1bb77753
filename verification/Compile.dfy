/** The whole pass: shape, walk, emission; and what the IR says the function computes. */
module Compile {
  import opened Cfgs
  import opened Shapes
  import opened Structured
  import opened Wrappers
  import opened Fixtures
  import opened Wasm
  import opened Emit
  import opened IrRuns
  import R = Relooper

  /** A block ends in an explicit terminator or falls through to its first successor. */
  function TermOf(fx: Fixture, g: Cfg, x: nat): R.Term
    requires x < |fx.blocks| == g.N() && 1 <= fx.blocks[x].last <= |fx.stmts|
  {
    match fx.stmts[fx.blocks[x].last - 1].node
    case Goto(dest) => R.Goto(if dest > 0 then dest - 1 else 0)
    case GotoIfNot(_, dest) => R.If(x + 1, if dest > 0 then dest - 1 else 0)
    case Return(_) => R.Return
    case _ => R.Goto(if |g.succs[x]| > 0 then g.succs[x][0] else 0)
  }

  function Terms(fx: Fixture, g: Cfg): (r: seq<R.Term>)
    requires |fx.blocks| == g.N() && forall x :: 0 <= x < g.N() ==> 1 <= fx.blocks[x].last <= |fx.stmts|
    ensures |r| == g.N() && forall x :: 0 <= x < g.N() ==> r[x] == TermOf(fx, g, x)
  {
    seq(g.N(), x requires 0 <= x < g.N() => TermOf(fx, g, x))
  }

  // --- events to instructions ------------------------------------------------------------------

  predicate BlocksInside(fx: Fixture) {
    forall x :: 0 <= x < |fx.blocks| ==> 1 <= fx.blocks[x].first <= fx.blocks[x].last <= |fx.stmts|
  }

  function EventCode(fx: Fixture, e: R.Event): Option<seq<Insn>>
    requires BlocksInside(fx)
  {
    var n := |fx.blocks|;
    match e
    case OpenLoop(_) => Some([LoopOpen])
    case OpenBlock(_) => Some([BlockOpen])
    case Close => Some([End])
    case Br(d) => Some([BrTo(d)])
    case ElseArm => Some([Else])
    case Stmts(x) => if x < n then StmtsCode(fx, fx.blocks[x].first - 1, fx.blocks[x].last) else None
    case PhiMoves(x, t) => if t < n then EdgeCode(fx, x, t) else None
    case OpenIf(x) =>
      if x < n then (var c :- CondCode(fx, x); Some([c] + [IfOpen])) else None
    case Ret(x) =>
      if x < n then (var c :- RetCode(fx, x); Some(c + [ReturnInsn])) else None
  }

  function EventsCode(fx: Fixture, es: seq<R.Event>): Option<seq<Insn>>
    requires BlocksInside(fx)
  {
    if es == [] then Some([])
    else
      var rest :- EventsCode(fx, es[..|es| - 1]);
      var last :- EventCode(fx, es[|es| - 1]);
      Some(rest + last)
  }

  lemma {:induction false} EventsCodeMember(fx: Fixture, es: seq<R.Event>, e: R.Event)
    requires BlocksInside(fx) && EventsCode(fx, es).Some? && e in es
    ensures EventCode(fx, e).Some?
  {
    assert es == es[..|es| - 1] + [es[|es| - 1]];
    if e != es[|es| - 1] {
      EventsCodeMember(fx, es[..|es| - 1], e);
    }
  }

  // --- every edge of the graph has its moves in the code -----------------------------------------

  lemma {:induction false} TreeEmitsMoves(s: Shape, terms: seq<R.Term>, x: nat, frames: seq<R.Frame>, b: nat, t: nat)
    requires R.Walkable(s, terms) && x < |terms| && b < |terms| && t in R.Targets(terms[b])
    requires R.DoTree(s, terms, x, frames).Some? && R.Emissions(R.DoTree(s, terms, x, frames).value, b) > 0
    ensures R.PhiMoves(b, t) in R.Flatten(R.DoTree(s, terms, x, frames).value)
    decreases |terms| - s.pos[x], 2, 0
  {
    NodeEmitsMoves(s, terms, x, R.Merges(s, s.domChildren[x]), if s.isLoopHeader[x] then frames + [R.Loop(x)] else frames, b, t);
  }

  lemma {:induction false} NodeEmitsMoves(s: Shape, terms: seq<R.Term>, x: nat, ms: seq<nat>, frames: seq<R.Frame>, b: nat, t: nat)
    requires R.Walkable(s, terms) && x < |terms| && b < |terms| && t in R.Targets(terms[b])
    requires forall m :: m in ms ==> m in s.domChildren[x]
    requires R.NodeWithin(s, terms, x, ms, frames).Some? && R.Emissions(R.NodeWithin(s, terms, x, ms, frames).value, b) > 0
    ensures R.PhiMoves(b, t) in R.Flatten(R.NodeWithin(s, terms, x, ms, frames).value)
    decreases |terms| - s.pos[x], 1, |ms|
  {
    if ms == [] {
      LeafEmitsMoves(s, terms, x, frames, b, t);
    } else {
      var last, rest := ms[|ms| - 1], ms[..|ms| - 1];
      assert last in ms && R.ChildrenLater(s, x);
      if R.Emissions(R.NodeWithin(s, terms, x, rest, frames + [R.Block(last)]).value, b) > 0 {
        NodeEmitsMoves(s, terms, x, rest, frames + [R.Block(last)], b, t);
      } else {
        TreeEmitsMoves(s, terms, last, frames, b, t);
      }
    }
  }

  lemma {:induction false} LeafEmitsMoves(s: Shape, terms: seq<R.Term>, x: nat, frames: seq<R.Frame>, b: nat, t: nat)
    requires R.Walkable(s, terms) && x < |terms| && b < |terms| && t in R.Targets(terms[b])
    requires R.NodeWithin(s, terms, x, [], frames).Some? && R.Emissions(R.NodeWithin(s, terms, x, [], frames).value, b) > 0
    ensures R.PhiMoves(b, t) in R.Flatten(R.NodeWithin(s, terms, x, [], frames).value)
    decreases |terms| - s.pos[x], 0, 1
  {
    match terms[x]
    case Return =>
    case Goto(p) =>
      assert p in R.Targets(terms[x]);
      BranchEmitsMoves(s, terms, x, p, frames, b, t);
    case If(p, q) =>
      assert p in R.Targets(terms[x]) && q in R.Targets(terms[x]);
      BranchEmitsMoves(s, terms, x, p, frames + [R.Arm], b, t);
      BranchEmitsMoves(s, terms, x, q, frames + [R.Arm], b, t);
  }

  lemma {:induction false} BranchEmitsMoves(s: Shape, terms: seq<R.Term>, x: nat, p: nat, frames: seq<R.Frame>, b: nat, t: nat)
    requires R.Walkable(s, terms) && x < |terms| && p < |terms| && b < |terms| && t in R.Targets(terms[b])
    requires R.DoBranch(s, terms, x, p, frames).Some?
    ensures R.PhiMoves(x, p) in R.Flatten(R.DoBranch(s, terms, x, p, frames).value)
    ensures R.Emissions(R.DoBranch(s, terms, x, p, frames).value, b) > 0 ==>
              R.PhiMoves(b, t) in R.Flatten(R.DoBranch(s, terms, x, p, frames).value)
    decreases |terms| - s.pos[x], 0, 0
  {
    var c := R.DoBranch(s, terms, x, p, frames).value;
    assert R.Emissions(c, b) == R.Emissions(c.second, b);
    if s.pos[x] < s.pos[p] && !s.isMerge[p] && R.Emissions(c.second, b) > 0 {
      TreeEmitsMoves(s, terms, p, frames, b, t);
    }
  }

  // --- the meaning of the leaves, and the emitted function ----------------------------------------

  /** What the IR says. */
  function SsaLeaves<W>(h: Host<W>, fx: Fixture, outer: seq<nat>): Leaves<State<W>>
    requires BlocksInside(fx)
  {
    Leaves(
      (x: nat, s: State<W>) =>
        if x < |fx.blocks| && |s.vals| == |fx.stmts|
        then RunStmts(h, outer, fx, s, fx.blocks[x].first - 1, fx.blocks[x].last) else s,
      (x: nat, t: nat, s: State<W>) => if t < |fx.blocks| && |s.vals| == |fx.stmts| then TakeEdge(fx, s, x, t) else s,
      (x: nat, s: State<W>) => x < |fx.blocks| && Condition(fx, s, x))
  }

  ghost predicate EdgesEmitted(fx: Fixture, terms: seq<R.Term>)
    requires BlocksInside(fx)
  {
    forall x, t :: 0 <= x < |terms| && t in R.Targets(terms[x]) ==> t < |fx.blocks| && EdgeCode(fx, x, t).Some?
  }

  /** `body` is what the walk over the accepted shape `s` of `g` emits for `fx`. */
  ghost predicate EmittedBody(fx: Fixture, g: Cfg, order: seq<nat>, s: Shape, code: R.Code, body: seq<Insn>)
    requires Typed(fx)
  {
    && |fx.blocks| == g.N() && R.Setting(g, order, s, Terms(fx, g))
    && R.Walkable(s, Terms(fx, g)) && R.DoTree(s, Terms(fx, g), 0, []) == Some(code)
    && EventsCode(fx, R.Flatten(code)) == Some(body)
  }

  lemma EmittedBodyHasEdges(fx: Fixture, g: Cfg, order: seq<nat>, s: Shape, code: R.Code, body: seq<Insn>)
    requires Typed(fx) && EmittedBody(fx, g, order, s, code, body)
    ensures 0 < g.N() && InRange(Terms(fx, g)) && EdgesEmitted(fx, Terms(fx, g))
  {
    assert 0 < g.N();
    hide ShapeOf, R.DoTree, EventCode, StmtTyped;
    var terms := Terms(fx, g);
    forall x, t | 0 <= x < |terms| && t in R.Targets(terms[x]) ensures t < |fx.blocks| && EdgeCode(fx, x, t).Some? {
      R.WalkEmitsEveryBlock(g, order, s, terms, x);
      TreeEmitsMoves(s, terms, 0, [], x, t);
      EventsCodeMember(fx, R.Flatten(code), R.PhiMoves(x, t));
      MovesEvent(fx, x, t);
    }
  }

  lemma MovesEvent(fx: Fixture, x: nat, t: nat)
    requires BlocksInside(fx) && EventCode(fx, R.PhiMoves(x, t)).Some?
    ensures t < |fx.blocks| && EdgeCode(fx, x, t).Some?
  {
  }

  // --- the IR's meaning is that of the graph the walk is given ---------------------------------------

  lemma PhiOperandIs(fx: Fixture, x: nat, t: nat, i: nat, j: nat)
    requires t < |fx.blocks| && i < |fx.stmts| && Listed(fx.stmts[i].node, x, j) && InBlock(fx, t, i)
    ensures PhiOperand(fx, x, t, i) == Some(fx.stmts[i].node.values[j])
  {
    var n := fx.stmts[i].node;
    var r := IndexOf(n.edges, x + 1);
    assert n.edges[j] in n.edges;
  }

  lemma PhiOperandOnly(fx: Fixture, x: nat, t: nat, i: nat)
    requires t < |fx.blocks| && i < |fx.stmts| && PhiOperand(fx, x, t, i).Some?
    ensures InBlock(fx, t, i) && exists j: nat :: Listed(fx.stmts[i].node, x, j)
  {
    var n := fx.stmts[i].node;
    var j := IndexOf(n.edges, x + 1).value;
    forall k | 0 <= k < j ensures n.edges[k] != x + 1 { assert n.edges[..j][k] == n.edges[k]; }
    assert Listed(n, x, j);
  }

  lemma PassedIsEdge<W>(fx: Fixture, s: State<W>, x: nat, t: nat)
    requires t < |fx.blocks| && |fx.stmts| == |s.vals|
    ensures Passed(fx, s, x, t) == TakeEdge(fx, s, x, t)
  {
    hide PhiOperand, InBlock;
    forall i: nat | i < |s.vals| ensures PhiTaken(fx, s, x, t, i) == TakeEdge(fx, s, x, t).vals[i] {
      if InBlock(fx, t, i) && exists j: nat :: Listed(fx.stmts[i].node, x, j) {
        var j: nat :| Listed(fx.stmts[i].node, x, j) && PhiTaken(fx, s, x, t, i) == Eval(s, fx.stmts[i].node.values[j]);
        PhiOperandIs(fx, x, t, i, j);
      } else if PhiOperand(fx, x, t, i).Some? {
        PhiOperandOnly(fx, x, t, i);
      }
    }
    assert Passed(fx, s, x, t).vals == TakeEdge(fx, s, x, t).vals;
  }

  lemma HazardIs(fx: Fixture, x: nat, t: nat)
    requires t < |fx.blocks| && fx.blocks[t].last <= |fx.stmts|
    ensures Hazard(fx, x, t) <==> ReadsOwnPhi(fx, x, t)
  {
    hide PhiOperand;
    if Hazard(fx, x, t) {
      var i: nat :| i < |fx.stmts| && PhiOperand(fx, x, t, i).Some? && ReadsPhiOf(fx, t, PhiOperand(fx, x, t, i).value);
      PhiOperandOnly(fx, x, t, i);
      var j: nat :| Listed(fx.stmts[i].node, x, j);
      PhiOperandIs(fx, x, t, i, j);
      assert NamesPhiOf(fx, t, fx.stmts[i].node.values[j]);
    }
    if ReadsOwnPhi(fx, x, t) {
      var i: nat, j: nat :| i < |fx.stmts| && InBlock(fx, t, i) && Listed(fx.stmts[i].node, x, j) && NamesPhiOf(fx, t, fx.stmts[i].node.values[j]);
      PhiOperandIs(fx, x, t, i, j);
      assert ReadsPhiOf(fx, t, PhiOperand(fx, x, t, i).value);
    }
  }

  /** The block the terminators lead to is the one the nodes lead to. */
  lemma NextIsFollowing<W>(h: Host<W>, fx: Fixture, g: Cfg, outer: seq<nat>, s: State<W>, x: nat)
    requires Typed(fx) && |fx.blocks| == g.N() && R.TermsMatch(g, Terms(fx, g)) && InRange(Terms(fx, g)) && x < g.N()
    ensures TermOf(fx, g, x).Return? <==> Following(fx, g, s, x).None?
    ensures !TermOf(fx, g, x).Return? ==> Following(fx, g, s, x) == Some(Next(SsaLeaves(h, fx, outer), Terms(fx, g), x, s))
  {
    assert StmtTyped(fx, fx.stmts[fx.blocks[x].last - 1]);
    if TermOf(fx, g, x).Goto? {
      assert TermOf(fx, g, x).target in R.Targets(Terms(fx, g)[x]);
      assert TermOf(fx, g, x).target in g.succs[x];
    }
  }

  lemma {:induction false} IrIsGraph<W>(h: Host<W>, fx: Fixture, g: Cfg, outer: seq<nat>, x: nat, s: State<W>, n: nat)
    requires Typed(fx) && |fx.blocks| == g.N() && R.TermsMatch(g, Terms(fx, g)) && InRange(Terms(fx, g)) && x < g.N()
    requires |s.vals| == |fx.stmts|
    ensures RunIr(h, outer, fx, g, x, s, n) == RunGraph(SsaLeaves(h, fx, outer), Terms(fx, g), x, s, n)
    decreases n
  {
    hide StmtTyped, R.TermsMatch, InRange, Following, Passed, TakeEdge, RunStmts, TermOf;
    if n > 0 {
      var s1 := RunStmts(h, outer, fx, s, fx.blocks[x].first - 1, fx.blocks[x].last);
      NextIsFollowing(h, fx, g, outer, s1, x);
      if !Terms(fx, g)[x].Return? {
        var t := Next(SsaLeaves(h, fx, outer), Terms(fx, g), x, s1);
        PassedIsEdge(fx, s1, x, t);
        IrIsGraph(h, fx, g, outer, t, TakeEdge(fx, s1, x, t), n - 1);
      }
    }
  }

  function InitialState<W>(fx: Fixture, args: seq<Val>, w: W): State<W> { State(ZeroVals(fx.stmts), args, w) }

  /** The emitted function: the prologue, the body, and a trap where control never arrives. */
  function Whole(fx: Fixture, body: seq<Insn>): seq<Insn> { Prologue(fx) + body + [Unreachable, End] }
}
