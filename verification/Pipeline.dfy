/** The compiler's entry point for one method: tables, shape, walk, emission. */
module Pipeline {
  import opened Cfgs
  import opened Shapes
  import opened Wrappers
  import opened Fixtures
  import opened Wasm
  import opened Emit
  import opened Compile
  import opened IrRuns
  import opened Emitters
  import opened Instructions
  import R = Relooper
  import Walkers

  /** Every leaf belongs to a block of the graph, moves lie on its edges, and conditions and returns
      belong to blocks that end so. */
  ghost predicate CodeFits(c: R.Code, terms: seq<R.Term>) {
    match c
    case Run(x) => x < |terms|
    case Phi(x, t) => x < |terms| && t < |terms| && t in R.Targets(terms[x])
    case Exit(x) => x < |terms| && terms[x].Return?
    case Jump(_) => true
    case Then(a, b) => CodeFits(a, terms) && CodeFits(b, terms)
    case LoopOf(_, b) => CodeFits(b, terms)
    case BlockOf(_, b) => CodeFits(b, terms)
    case IfOf(x, a, b) => x < |terms| && terms[x].If? && CodeFits(a, terms) && CodeFits(b, terms)
  }

  lemma {:induction false} TreeFits(s: Shape, terms: seq<R.Term>, x: nat, frames: seq<R.Frame>)
    requires R.Walkable(s, terms) && x < |terms| && R.DoTree(s, terms, x, frames).Some?
    ensures CodeFits(R.DoTree(s, terms, x, frames).value, terms)
    decreases |terms| - s.pos[x], 2, 0
  {
    NodeFits(s, terms, x, R.Merges(s, s.domChildren[x]), if s.isLoopHeader[x] then frames + [R.Loop(x)] else frames);
  }

  lemma {:induction false} NodeFits(s: Shape, terms: seq<R.Term>, x: nat, ms: seq<nat>, frames: seq<R.Frame>)
    requires R.Walkable(s, terms) && x < |terms| && forall m :: m in ms ==> m in s.domChildren[x]
    requires R.NodeWithin(s, terms, x, ms, frames).Some?
    ensures CodeFits(R.NodeWithin(s, terms, x, ms, frames).value, terms)
    decreases |terms| - s.pos[x], 1, |ms|
  {
    if ms != [] {
      var last := ms[|ms| - 1];
      assert last in ms && R.ChildrenLater(s, x);
      NodeFits(s, terms, x, ms[..|ms| - 1], frames + [R.Block(last)]);
      TreeFits(s, terms, last, frames);
    } else {
      match terms[x]
      case Return =>
      case Goto(p) =>
        assert p in R.Targets(terms[x]);
        BranchFits(s, terms, x, p, frames);
      case If(p, q) =>
        assert p in R.Targets(terms[x]) && q in R.Targets(terms[x]);
        BranchFits(s, terms, x, p, frames + [R.Arm]);
        BranchFits(s, terms, x, q, frames + [R.Arm]);
    }
  }

  lemma {:induction false} BranchFits(s: Shape, terms: seq<R.Term>, x: nat, p: nat, frames: seq<R.Frame>)
    requires R.Walkable(s, terms) && x < |terms| && p < |terms| && p in R.Targets(terms[x]) && R.DoBranch(s, terms, x, p, frames).Some?
    ensures CodeFits(R.DoBranch(s, terms, x, p, frames).value, terms)
    decreases |terms| - s.pos[x], 0, 0
  {
    if s.pos[x] < s.pos[p] && !s.isMerge[p] {
      TreeFits(s, terms, p, frames);
    }
  }

  ghost predicate EventFits(e: R.Event, terms: seq<R.Term>) {
    match e
    case Stmts(x) => x < |terms|
    case PhiMoves(x, t) => x < |terms| && t < |terms| && t in R.Targets(terms[x])
    case OpenIf(x) => x < |terms| && terms[x].If?
    case Ret(x) => x < |terms| && terms[x].Return?
    case _ => true
  }

  lemma {:induction false} FlattenFits(c: R.Code, terms: seq<R.Term>)
    requires CodeFits(c, terms)
    ensures forall e :: e in R.Flatten(c) ==> EventFits(e, terms)
  {
    match c
    case Then(a, b) => FlattenFits(a, terms); FlattenFits(b, terms);
    case LoopOf(_, b) => FlattenFits(b, terms);
    case BlockOf(_, b) => FlattenFits(b, terms);
    case IfOf(_, a, b) => FlattenFits(a, terms); FlattenFits(b, terms);
    case _ =>
  }

  // --- emission fails only on a hazard ----------------------------------------------------------

  lemma {:induction false} TypedStmts(fx: Fixture, lo: nat, hi: nat)
    requires Typed(fx) && lo <= hi <= |fx.stmts|
    ensures StmtsCode(fx, lo, hi).Some?
    decreases hi - lo
  {
    if lo < hi {
      TypedStmts(fx, lo, hi - 1);
      assert StmtTyped(fx, fx.stmts[hi - 1]);
      if fx.stmts[hi - 1].node.Call? {
        TwoOperands(fx, fx.stmts[hi - 1].node.args);
      }
    }
  }

  lemma {:induction false} TypedMoves(fx: Fixture, x: nat, t: nat, hi: nat)
    requires Typed(fx) && t < |fx.blocks| && hi <= |fx.stmts|
    ensures MovesCode(fx, x, t, hi).Some?
  {
    if hi > 0 {
      TypedMoves(fx, x, t, hi - 1);
      if PhiOperand(fx, x, t, hi - 1).Some? {
        PhiOperandTyped(fx, x, t, hi - 1);
      }
    }
  }

  ghost predicate HazardOnEdge(fx: Fixture, g: Cfg, x: nat, t: nat)
    requires Typed(fx) && |fx.blocks| == g.N()
  {
    g.Edge(x, t) && t < g.N() && ReadsOwnPhi(fx, x, t)
  }

  lemma EventFails(fx: Fixture, g: Cfg, e: R.Event)
    requires Typed(fx) && |fx.blocks| == g.N() && R.TermsMatch(g, Terms(fx, g)) && EventFits(e, Terms(fx, g))
    ensures EventCode(fx, e).None? <==> e.PhiMoves? && HazardOnEdge(fx, g, e.x, e.target)
  {
    hide StmtsCode, MovesCode, Hazard, CondCode, RetCode, StmtTyped, R.TermsMatch;
    match e
    case Stmts(x) => TypedStmts(fx, fx.blocks[x].first - 1, fx.blocks[x].last);
    case PhiMoves(x, t) => MovesFail(fx, g, x, t);
    case OpenIf(x) => TypedTerminator(fx, g, x);
    case Ret(x) => TypedTerminator(fx, g, x);
    case _ =>
  }

  lemma MovesFail(fx: Fixture, g: Cfg, x: nat, t: nat)
    requires Typed(fx) && |fx.blocks| == g.N() && R.TermsMatch(g, Terms(fx, g)) && x < g.N() && t < g.N()
    requires t in R.Targets(TermOf(fx, g, x))
    ensures EdgeCode(fx, x, t).None? <==> HazardOnEdge(fx, g, x, t)
  {
    TypedMoves(fx, x, t, |fx.stmts|);
    HazardIs(fx, x, t);
    R.TargetIsEdge(g, Terms(fx, g), x, t);
  }

  lemma TypedTerminator(fx: Fixture, g: Cfg, x: nat)
    requires Typed(fx) && x < |fx.blocks| == g.N()
    ensures TermOf(fx, g, x).If? ==> CondCode(fx, x).Some?
    ensures TermOf(fx, g, x).Return? ==> RetCode(fx, x).Some?
  {
    assert StmtTyped(fx, fx.stmts[fx.blocks[x].last - 1]);
  }

  lemma {:induction false} EventsFail(fx: Fixture, g: Cfg, es: seq<R.Event>)
    requires Typed(fx) && |fx.blocks| == g.N() && R.TermsMatch(g, Terms(fx, g))
    requires forall e :: e in es ==> EventFits(e, Terms(fx, g))
    requires EventsCode(fx, es).None?
    ensures exists x, t :: HazardOnEdge(fx, g, x, t)
  {
    var last := es[|es| - 1];
    assert es == es[..|es| - 1] + [last];
    if EventsCode(fx, es[..|es| - 1]).None? {
      EventsFail(fx, g, es[..|es| - 1]);
    } else {
      EventFails(fx, g, last);
      assert HazardOnEdge(fx, g, last.x, last.target);
    }
  }

  /** Typed operands name existing statements. */
  lemma TypedIds(fx: Fixture, e: FnEmitter)
    requires Typed(fx) && e.fx == fx && e.Valid()
    ensures e.AllIdsInRange()
  {
    forall i | 0 <= i < |fx.stmts| ensures e.IdsInRange(fx.stmts[i].node) {
      assert StmtTyped(fx, fx.stmts[i]);
    }
    forall x | 0 <= x < |fx.blocks| ensures e.TerminatorIdsInRange(x) {
      assert StmtTyped(fx, fx.stmts[fx.blocks[x].last - 1]);
    }
  }

  /** Compile one typed method whose block lists describe its graph.  It is accepted exactly when every
      block is reachable, the graph is reducible and no edge has a phi hazard; the result is the prologue,
      the code the walk emits, and a trap, and every call of it computes what the IR says, in any world `W`. */
  method EmitFunction<W(!new)>(fx: Fixture, g: Cfg)
    returns (r: Option<seq<Insn>>, ghost order: seq<nat>, ghost s: Shape, ghost code: R.Code, ghost body: seq<Insn>)
    requires WellFormed(g) && Typed(fx) && |fx.blocks| == g.N() && R.TermsMatch(g, Terms(fx, g))
    ensures r.Some? ==> EmittedBody(fx, g, order, s, code, body) && r.value == Whole(fx, body)
    ensures r.Some? ==> ComputesIr<W>(fx, g, code, r.value)
    ensures r.Some? <==>
              && Reducible(g) && (forall b :: 0 <= b < g.N() ==> Reachable(g, b))
              && !(exists x, t :: HazardOnEdge(fx, g, x, t))
  {
    hide ComputesIr, Reducible, Reachable, Prologue, StmtTyped, EventsCode, EventFits, ShapeOf;
    order, s, code, body := [], Shape([], [], [], [], []), R.Jump(0), [];
    var terms := Terms(fx, g);
    var supported, ssaLocal, refSlot, hasGetField := BuildTables(fx);
    var shape;
    shape, order := NewShape(g);
    if !shape.Accepted? {
      return None, order, s, code, body;
    }
    s := shape.shape;
    R.WalkSucceeds(g, order, s, terms);
    code := R.DoTree(s, terms, 0, []).value;
    var walker := new Walkers.Walker(shape.shape, terms);
    var walked := walker.Run();
    var emitter := new FnEmitter(fx, ssaLocal, refSlot, Prologue(fx));
    EventsAreFit(fx, g, order, s, code);
    TypedIds(fx, emitter);
    assert walker.events == R.Flatten(code);
    emitter.OnEvents(walker.events);
    if !emitter.ok {
      EventsFail(fx, g, R.Flatten(code));
      return None, order, s, code, body;
    }
    body := EventsCode(fx, R.Flatten(code)).value;
    NoHazard(fx, g, order, s, code, body);
    EmittedComputesIr<W>(fx, g, order, s, code, body);
    r := Some(emitter.insns + [Unreachable, End]);
  }

  lemma EventsAreFit(fx: Fixture, g: Cfg, order: seq<nat>, s: Shape, code: R.Code)
    requires Typed(fx) && |fx.blocks| == g.N() && R.Walkable(s, Terms(fx, g)) && 0 < g.N()
    requires R.DoTree(s, Terms(fx, g), 0, []) == Some(code)
    ensures forall e :: e in R.Flatten(code) ==> EventFits(e, Terms(fx, g)) && EventInRange(fx, e)
  {
    TreeFits(s, Terms(fx, g), 0, []);
    FlattenFits(code, Terms(fx, g));
  }

  lemma NoHazard(fx: Fixture, g: Cfg, order: seq<nat>, s: Shape, code: R.Code, body: seq<Insn>)
    requires Typed(fx) && EmittedBody(fx, g, order, s, code, body)
    ensures !(exists x, t :: HazardOnEdge(fx, g, x, t))
  {
    EmittedBodyHasEdges(fx, g, order, s, code, body);
    forall x: nat, t: nat | x < g.N() && t < g.N() ensures Hazard(fx, x, t) <==> ReadsOwnPhi(fx, x, t) { HazardIs(fx, x, t); }
  }
}
