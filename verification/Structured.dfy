/** What the structured code means (section 4.4.5 of the WebAssembly Core Specification 1.0), what the
    graph means, and that the walk preserves the one in the other, for any meaning of the leaves. */
module Structured {
  import opened Cfgs
  import opened Shapes
  import opened Relooper
  import opened Wrappers

  /** The meaning of the leaves over a state `S`: a block's statements, the moves on an edge, and a
      block's condition. */
  datatype Leaves<!S> = Leaves(run: (nat, S) -> S, phi: (nat, nat, S) -> S, cond: (nat, S) -> bool)

  // --- structured code -------------------------------------------------------------------

  /** How a piece of code stops: past its end, by a branch to an enclosing label, by returning from
      a block, or with its allowance of loop iterations spent. */
  datatype Stop = Fell | Branched(depth: nat) | Returned(block: nat) | Spent

  /** The trace lists the blocks whose statements ran. */
  datatype Outcome<S> = Outcome(stop: Stop, state: S, trace: seq<nat>)

  function After<S>(trace: seq<nat>, o: Outcome<S>): Outcome<S> {
    o.(trace := trace + o.trace)
  }

  /** Leaving a block or an if: a branch to its label goes on past its end. */
  function Leave<S>(o: Outcome<S>): Outcome<S> {
    match o.stop
    case Branched(d) => o.(stop := if d == 0 then Fell else Branched(d - 1))
    case _ => o
  }

  function Exec<S>(sem: Leaves<S>, c: Code, st: S, fuel: nat): Outcome<S>
    decreases fuel, c
  {
    match c
    case Run(x) => Outcome(Fell, sem.run(x, st), [x])
    case Phi(x, t) => Outcome(Fell, sem.phi(x, t, st), [])
    case Jump(d) => Outcome(Branched(d), st, [])
    case Exit(x) => Outcome(Returned(x), st, [])
    case Then(a, b) =>
      var o := Exec(sem, a, st, fuel);
      if o.stop.Fell? then After(o.trace, Exec(sem, b, o.state, fuel)) else o
    case BlockOf(_, b) => Leave(Exec(sem, b, st, fuel))
    case IfOf(x, a, b) => Leave(if sem.cond(x, st) then Exec(sem, a, st, fuel) else Exec(sem, b, st, fuel))
    case LoopOf(_, b) =>
      var o := Exec(sem, b, st, fuel);
      if o.stop != Branched(0) then Leave(o)
      else if fuel == 0 then o.(stop := Spent)
      else After(o.trace, Exec(sem, c, o.state, fuel - 1))
  }

  // --- the graph -----------------------------------------------------------------------------

  datatype Config<S> = At(block: nat, state: S) | Halted(block: nat, state: S)

  datatype GraphRun<S> = GraphRun(end: Config<S>, trace: seq<nat>)

  ghost predicate InRange(terms: seq<Term>) {
    forall x, t :: 0 <= x < |terms| && t in Targets(terms[x]) ==> t < |terms|
  }

  /** The block control passes to after the statements of `x` have left state `st`. */
  function Next<S>(sem: Leaves<S>, terms: seq<Term>, x: nat, st: S): (r: nat)
    requires InRange(terms) && x < |terms| && !terms[x].Return?
    ensures r < |terms| && r in Targets(terms[x])
  {
    match terms[x]
    case If(a, b) => if sem.cond(x, st) then assert a in Targets(terms[x]); a else assert b in Targets(terms[x]); b
    case Goto(t) => assert t in Targets(terms[x]); t
  }

  /** Run up to `n` blocks of the graph from block `x`. */
  function RunGraph<S>(sem: Leaves<S>, terms: seq<Term>, x: nat, st: S, n: nat): GraphRun<S>
    requires InRange(terms) && x < |terms|
    decreases n
  {
    if n == 0 then GraphRun(At(x, st), [])
    else
      var st1 := sem.run(x, st);
      if terms[x].Return? then GraphRun(Halted(x, st1), [x])
      else
        var t := Next(sem, terms, x, st1);
        var r := RunGraph(sem, terms, t, sem.phi(x, t, st1), n - 1);
        r.(trace := [x] + r.trace)
  }

  /** Running on from where a run stands. */
  lemma {:induction false} RunSplit<S>(sem: Leaves<S>, terms: seq<Term>, x: nat, st: S, a: nat, b: nat)
    requires InRange(terms) && x < |terms|
    ensures var r := RunGraph(sem, terms, x, st, a);
            && (r.end.Halted? ==> RunGraph(sem, terms, x, st, a + b) == r)
            && (r.end.At? ==>
                  && r.end.block < |terms|
                  && var r2 := RunGraph(sem, terms, r.end.block, r.end.state, b);
                     RunGraph(sem, terms, x, st, a + b) == GraphRun(r2.end, r.trace + r2.trace))
    decreases a
  {
    if a == 0 {
      var r2 := RunGraph(sem, terms, x, st, b);
      assert [] + r2.trace == r2.trace;
    } else if !terms[x].Return? {
      var st1 := sem.run(x, st);
      var t := Next(sem, terms, x, st1);
      RunSplit(sem, terms, t, sem.phi(x, t, st1), a - 1, b);
    }
  }

  // --- simulation ----------------------------------------------------------------------------

  /** The block a branch of depth `d` continues at, given the frames open around it. */
  function Label(frames: seq<Frame>, d: nat): Option<nat> {
    if d >= |frames| then None
    else
      match frames[|frames| - 1 - d]
      case Loop(h) => Some(h)
      case Block(m) => Some(m)
      case Arm => None
  }

  /** The outcome `o` of code placed inside `frames` and entered at block `x` agrees with the graph. */
  ghost predicate Agrees<S>(sem: Leaves<S>, terms: seq<Term>, x: nat, st: S, fuel: nat, frames: seq<Frame>, o: Outcome<S>)
    requires InRange(terms) && x < |terms|
  {
    var r := RunGraph(sem, terms, x, st, |o.trace|);
    && 0 < |o.trace| && r.trace == o.trace
    && match o.stop
       case Fell => false
       case Branched(d) => Label(frames, d).Some? && r.end == At(Label(frames, d).value, o.state)
       case Returned(b) => r.end == Halted(b, o.state)
       case Spent => r.end.At? && r.end.state == o.state && fuel < |o.trace|
  }

  /** Going on from a branch that has arrived at block `y`. */
  lemma AgreesAfter<S>(sem: Leaves<S>, terms: seq<Term>, x: nat, st: S, fuel: nat, frames: seq<Frame>,
                       o: Outcome<S>, y: nat, fuel2: nat, o2: Outcome<S>)
    requires InRange(terms) && x < |terms| && y < |terms|
    requires RunGraph(sem, terms, x, st, |o.trace|) == GraphRun(At(y, o.state), o.trace) && 0 < |o.trace|
    requires Agrees(sem, terms, y, o.state, fuel2, frames, o2) && fuel <= fuel2 + 1
    ensures Agrees(sem, terms, x, st, fuel, frames, After(o.trace, o2))
  {
    RunSplit(sem, terms, x, st, |o.trace|, |o2.trace|);
  }

  /** Leaving the innermost frame by anything but a branch to it. */
  lemma AgreesLeaving<S>(sem: Leaves<S>, terms: seq<Term>, x: nat, st: S, fuel: nat, frames: seq<Frame>, f: Frame, o: Outcome<S>)
    requires InRange(terms) && x < |terms| && Agrees(sem, terms, x, st, fuel, frames + [f], o)
    requires o.stop != Branched(0)
    ensures Agrees(sem, terms, x, st, fuel, frames, Leave(o))
  {
  }

  lemma {:induction false} TreeAgrees<S>(sem: Leaves<S>, s: Shape, terms: seq<Term>, x: nat, frames: seq<Frame>, st: S, fuel: nat)
    requires Walkable(s, terms) && InRange(terms) && x < |terms| && DoTree(s, terms, x, frames).Some?
    ensures Agrees(sem, terms, x, st, fuel, frames, Exec(sem, DoTree(s, terms, x, frames).value, st, fuel))
    decreases fuel, |terms| - s.pos[x], 2, 0
  {
    var ms := Merges(s, s.domChildren[x]);
    if !s.isLoopHeader[x] {
      NodeAgrees(sem, s, terms, x, ms, frames, st, fuel);
    } else {
      NodeAgrees(sem, s, terms, x, ms, frames + [Loop(x)], st, fuel);
      var body := NodeWithin(s, terms, x, ms, frames + [Loop(x)]).value;
      var o := Exec(sem, body, st, fuel);
      if o.stop != Branched(0) {
        AgreesLeaving(sem, terms, x, st, fuel, frames, Loop(x), o);
      } else if fuel > 0 {
        TreeAgrees(sem, s, terms, x, frames, o.state, fuel - 1);
        AgreesAfter(sem, terms, x, st, fuel, frames, o, x, fuel - 1, Exec(sem, LoopOf(x, body), o.state, fuel - 1));
      }
    }
  }

  lemma {:induction false} NodeAgrees<S>(sem: Leaves<S>, s: Shape, terms: seq<Term>, x: nat, ms: seq<nat>, frames: seq<Frame>, st: S, fuel: nat)
    requires Walkable(s, terms) && InRange(terms) && x < |terms| && forall m :: m in ms ==> m in s.domChildren[x]
    requires NodeWithin(s, terms, x, ms, frames).Some?
    ensures Agrees(sem, terms, x, st, fuel, frames, Exec(sem, NodeWithin(s, terms, x, ms, frames).value, st, fuel))
    decreases fuel, |terms| - s.pos[x], 1, |ms|
  {
    if ms == [] {
      LeafAgrees(sem, s, terms, x, frames, st, fuel);
    } else {
      var last, rest := ms[|ms| - 1], ms[..|ms| - 1];
      assert last in ms && ChildrenLater(s, x);
      NodeAgrees(sem, s, terms, x, rest, frames + [Block(last)], st, fuel);
      var o := Exec(sem, NodeWithin(s, terms, x, rest, frames + [Block(last)]).value, st, fuel);
      if o.stop == Branched(0) {
        TreeAgrees(sem, s, terms, last, frames, o.state, fuel);
        AgreesAfter(sem, terms, x, st, fuel, frames, o, last, fuel,
                    Exec(sem, DoTree(s, terms, last, frames).value, o.state, fuel));
      } else {
        AgreesLeaving(sem, terms, x, st, fuel, frames, Block(last), o);
      }
    }
  }

  lemma {:induction false} LeafAgrees<S>(sem: Leaves<S>, s: Shape, terms: seq<Term>, x: nat, frames: seq<Frame>, st: S, fuel: nat)
    requires Walkable(s, terms) && InRange(terms) && x < |terms| && NodeWithin(s, terms, x, [], frames).Some?
    ensures Agrees(sem, terms, x, st, fuel, frames, Exec(sem, NodeWithin(s, terms, x, [], frames).value, st, fuel))
    decreases fuel, |terms| - s.pos[x], 0, 1
  {
    var st1 := sem.run(x, st);
    match terms[x]
    case Return =>
      assert RunGraph(sem, terms, x, st, 1).end == Halted(x, st1);
    case Goto(t) =>
      assert t in Targets(terms[x]);
      BranchAgrees(sem, s, terms, x, t, frames, st, fuel);
    case If(a, b) =>
      assert a in Targets(terms[x]) && b in Targets(terms[x]);
      var t := Next(sem, terms, x, st1);
      BranchAgrees(sem, s, terms, x, t, frames + [Arm], st, fuel);
      var o := Exec(sem, DoBranch(s, terms, x, t, frames + [Arm]).value, st1, fuel);
      AgreesLeaving(sem, terms, x, st, fuel, frames, Arm, After([x], o));
      assert Leave(After([x], o)) == After([x], Leave(o));
  }

  /** A branch out of `x`, seen from where `x` was entered. */
  lemma {:induction false} BranchAgrees<S>(sem: Leaves<S>, s: Shape, terms: seq<Term>, x: nat, t: nat, frames: seq<Frame>, st: S, fuel: nat)
    requires Walkable(s, terms) && InRange(terms) && x < |terms| && t < |terms| && !terms[x].Return?
    requires Next(sem, terms, x, sem.run(x, st)) == t && DoBranch(s, terms, x, t, frames).Some?
    ensures Agrees(sem, terms, x, st, fuel, frames,
                   After([x], Exec(sem, DoBranch(s, terms, x, t, frames).value, sem.run(x, st), fuel)))
    decreases fuel, |terms| - s.pos[x], 0, 0
  {
    hide Agrees, RunGraph, NodeWithin, DoTree;
    var st1 := sem.run(x, st);
    var st2 := sem.phi(x, t, st1);
    OneBlock(sem, terms, x, st);
    var rest := DoBranch(s, terms, x, t, frames).value.second;
    ExecAfterMoves(sem, x, t, rest, st1, fuel);
    if s.pos[t] > s.pos[x] && !s.isMerge[t] {
      TreeAgrees(sem, s, terms, t, frames, st2, fuel);
      AgreesAfter(sem, terms, x, st, fuel, frames, Outcome(Fell, st2, [x]), t, fuel, Exec(sem, rest, st2, fuel));
    } else {
      BranchTaken(sem, terms, x, st, fuel, frames, t, rest.depth);
    }
  }

  /** A branch to the frame of the block that comes next. */
  lemma BranchTaken<S>(sem: Leaves<S>, terms: seq<Term>, x: nat, st: S, fuel: nat, frames: seq<Frame>, t: nat, d: nat)
    requires InRange(terms) && x < |terms| && !terms[x].Return? && Next(sem, terms, x, sem.run(x, st)) == t
    requires Label(frames, d) == Some(t)
    ensures var st2 := sem.phi(x, t, sem.run(x, st));
            Agrees(sem, terms, x, st, fuel, frames, After([x], Exec(sem, Jump(d), st2, fuel)))
  {
    hide RunGraph;
    OneBlock(sem, terms, x, st);
    var st2 := sem.phi(x, t, sem.run(x, st));
    assert Exec(sem, Jump(d), st2, fuel) == Outcome(Branched(d), st2, []);
    assert [x] + [] == [x];
  }

  lemma OneBlock<S>(sem: Leaves<S>, terms: seq<Term>, x: nat, st: S)
    requires InRange(terms) && x < |terms| && !terms[x].Return?
    ensures var st1 := sem.run(x, st);
            var t := Next(sem, terms, x, st1);
            RunGraph(sem, terms, x, st, 1) == GraphRun(At(t, sem.phi(x, t, st1)), [x])
  {
    var t := Next(sem, terms, x, sem.run(x, st));
    var st2 := sem.phi(x, t, sem.run(x, st));
    assert RunGraph(sem, terms, t, st2, 0) == GraphRun(At(t, st2), []);
  }

  lemma ExecAfterMoves<S>(sem: Leaves<S>, x: nat, t: nat, rest: Code, st: S, fuel: nat)
    ensures Exec(sem, Then(Phi(x, t), rest), st, fuel) == Exec(sem, rest, sem.phi(x, t, st), fuel)
  {
    var o := Exec(sem, rest, sem.phi(x, t, st), fuel);
    assert Exec(sem, Phi(x, t), st, fuel) == Outcome(Fell, sem.phi(x, t, st), []);
    assert [] + o.trace == o.trace;
  }

  /** Soundness, for every meaning of the leaves, every start state and every allowance: the code of
      an accepted graph never falls past its end nor branches out of it; a return has run the same
      blocks with the same state as the graph; and a spent allowance has followed the graph, to the same
      state, for more blocks than the allowance. */
  lemma CodeFollowsGraph<S>(g: Cfg, order: seq<nat>, s: Shape, terms: seq<Term>, sem: Leaves<S>, st: S, fuel: nat)
    requires Setting(g, order, s, terms)
    ensures Walkable(s, terms) && InRange(terms) && 0 < |terms| && DoTree(s, terms, 0, []).Some?
    ensures var o := Exec(sem, DoTree(s, terms, 0, []).value, st, fuel);
            var r := RunGraph(sem, terms, 0, st, |o.trace|);
            && r.trace == o.trace
            && match o.stop
               case Returned(b) => r.end == Halted(b, o.state)
               case Spent => r.end.At? && r.end.state == o.state && fuel < |o.trace|
               case _ => false
  {
    WalkSucceeds(g, order, s, terms);
    TreeAgrees(sem, s, terms, 0, [], st, fuel);
  }

  /** Completeness: when the graph halts within `n` blocks, the code returns from the same block
      with the same state, having run the same blocks. */
  lemma GraphFollowedByCode<S>(g: Cfg, order: seq<nat>, s: Shape, terms: seq<Term>, sem: Leaves<S>, st: S, n: nat)
    requires Setting(g, order, s, terms) && InRange(terms)
    requires RunGraph(sem, terms, 0, st, n).end.Halted?
    ensures Walkable(s, terms) && 0 < |terms| && DoTree(s, terms, 0, []).Some?
    ensures var r := RunGraph(sem, terms, 0, st, n);
            Exec(sem, DoTree(s, terms, 0, []).value, st, n) == Outcome(Returned(r.end.block), r.end.state, r.trace)
  {
    hide ShapeOf, Exec, RunGraph;
    CodeFollowsGraph(g, order, s, terms, sem, st, n);
    var o := Exec(sem, DoTree(s, terms, 0, []).value, st, n);
    HaltIsFinal(sem, terms, 0, st, n, |o.trace|);
  }

  /** A run that has halted by `n` blocks is the same at every later count, and no earlier count halts elsewhere. */
  lemma HaltIsFinal<S>(sem: Leaves<S>, terms: seq<Term>, x: nat, st: S, n: nat, m: nat)
    requires InRange(terms) && x < |terms| && RunGraph(sem, terms, x, st, n).end.Halted?
    ensures var r := RunGraph(sem, terms, x, st, m);
            if r.end.Halted? then r == RunGraph(sem, terms, x, st, n) else m < n
  {
    if m <= n {
      RunSplit(sem, terms, x, st, m, n - m);
    } else {
      RunSplit(sem, terms, x, st, n, m - n);
    }
  }
}
