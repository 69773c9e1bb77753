/** The dominator-tree walk that turns a reducible graph into nested loop, block and if frames. */
module Relooper {
  import opened Cfgs
  import opened Dominators
  import opened Shapes
  import opened Wrappers

  /** A block's terminator: for `If`, `then_` is entered when the condition holds. */
  datatype Term = If(then_: nat, else_: nat) | Goto(target: nat) | Return

  datatype Frame = Loop(header: nat) | Block(follow: nat) | Arm

  function Targets(t: Term): seq<nat> {
    match t
    case If(a, b) => [a, b]
    case Goto(a) => [a]
    case Return => []
  }

  /** What the walk asks of its caller, in order. */
  datatype Event =
    | OpenLoop(x: nat) | OpenBlock(follow: nat) | Close
    | Stmts(x: nat) | PhiMoves(x: nat, target: nat) | Br(depth: nat)
    | OpenIf(x: nat) | ElseArm | Ret(x: nat)

  /** The same, with the nesting made explicit. */
  datatype Code =
    | Run(x: nat)
    | Phi(x: nat, target: nat)
    | Jump(depth: nat)
    | Exit(x: nat)
    | Then(first: Code, second: Code)
    | LoopOf(header: nat, body: Code)
    | BlockOf(follow: nat, body: Code)
    | IfOf(x: nat, thn: Code, els: Code)

  function Flatten(c: Code): seq<Event> {
    match c
    case Run(x) => [Stmts(x)]
    case Phi(x, t) => [PhiMoves(x, t)]
    case Jump(d) => [Br(d)]
    case Exit(x) => [Ret(x)]
    case Then(a, b) => Flatten(a) + Flatten(b)
    case LoopOf(h, b) => [OpenLoop(h)] + Flatten(b) + [Close]
    case BlockOf(f, b) => [OpenBlock(f)] + Flatten(b) + [Close]
    case IfOf(x, a, b) => [OpenIf(x)] + Flatten(a) + [ElseArm] + Flatten(b) + [Close]
  }

  // --- the walk as a function ----------------------------------------------------------

  /** Indices are in range and children are placed after their parent. */
  ghost predicate Walkable(s: Shape, terms: seq<Term>) {
    && |s.pos| == |s.idom| == |s.domChildren| == |s.isLoopHeader| == |s.isMerge| == |terms|
    && (forall x :: 0 <= x < |terms| ==> ChildrenLater(s, x))
    && (forall x, t :: 0 <= x < |terms| && t in Targets(terms[x]) ==> t < |terms|)
    && (forall x :: 0 <= x < |terms| ==> s.pos[x] < |terms|)
  }

  ghost predicate ChildrenLater(s: Shape, x: nat) {
    x < |s.pos| && x < |s.domChildren| &&
    forall c :: c in s.domChildren[x] ==> c < |s.pos| && s.pos[x] < s.pos[c]
  }

  function Merges(s: Shape, cs: seq<nat>): (r: seq<nat>)
    ensures forall c: nat :: c in r <==> c in cs && c < |s.isMerge| && s.isMerge[c]
  {
    if cs == [] then []
    else
      assert cs == cs[..|cs| - 1] + [cs[|cs| - 1]];
      Merges(s, cs[..|cs| - 1]) +
      (if cs[|cs| - 1] < |s.isMerge| && s.isMerge[cs[|cs| - 1]] then [cs[|cs| - 1]] else [])
  }

  /** The distance of the innermost frame equal to `f`. */
  function DepthOf(frames: seq<Frame>, f: Frame): (d: Option<nat>)
    ensures d.Some? <==> f in frames
    ensures d.Some? ==> d.value < |frames| && frames[|frames| - 1 - d.value] == f
    ensures d.Some? ==> forall k :: |frames| - 1 - d.value < k < |frames| ==> frames[k] != f
  {
    if frames == [] then None
    else
      assert frames == frames[..|frames| - 1] + [frames[|frames| - 1]];
      if frames[|frames| - 1] == f then Some(0)
      else
        var d := DepthOf(frames[..|frames| - 1], f);
        if d.None? then None else Some(d.value + 1)
  }

  function DoTree(s: Shape, terms: seq<Term>, x: nat, frames: seq<Frame>): Option<Code>
    requires Walkable(s, terms) && x < |terms|
    decreases |terms| - s.pos[x], 2, 0
  {
    var ms := Merges(s, s.domChildren[x]);
    if s.isLoopHeader[x] then
      var body :- NodeWithin(s, terms, x, ms, frames + [Loop(x)]);
      Some(LoopOf(x, body))
    else
      NodeWithin(s, terms, x, ms, frames)
  }

  function NodeWithin(s: Shape, terms: seq<Term>, x: nat, ms: seq<nat>, frames: seq<Frame>): Option<Code>
    requires Walkable(s, terms) && x < |terms| && forall m :: m in ms ==> m in s.domChildren[x]
    decreases |terms| - s.pos[x], 1, |ms|
  {
    if ms != [] then
      var last := ms[|ms| - 1];
      assert last in ms && ChildrenLater(s, x);
      var inner :- NodeWithin(s, terms, x, ms[..|ms| - 1], frames + [Block(last)]);
      var after :- DoTree(s, terms, last, frames);
      Some(Then(BlockOf(last, inner), after))
    else
      match terms[x]
      case If(a, b) =>
        assert a in Targets(terms[x]) && b in Targets(terms[x]);
        var thn :- DoBranch(s, terms, x, a, frames + [Arm]);
        var els :- DoBranch(s, terms, x, b, frames + [Arm]);
        Some(Then(Run(x), IfOf(x, thn, els)))
      case Goto(t) =>
        assert t in Targets(terms[x]);
        var go :- DoBranch(s, terms, x, t, frames);
        Some(Then(Run(x), go))
      case Return =>
        Some(Then(Run(x), Exit(x)))
  }

  function DoBranch(s: Shape, terms: seq<Term>, x: nat, target: nat, frames: seq<Frame>): Option<Code>
    requires Walkable(s, terms) && x < |terms| && target < |terms|
    decreases |terms| - s.pos[x], 0, 0
  {
    if s.pos[target] <= s.pos[x] then
      var d :- DepthOf(frames, Loop(target));
      Some(Then(Phi(x, target), Jump(d)))
    else if s.isMerge[target] then
      var d :- DepthOf(frames, Block(target));
      Some(Then(Phi(x, target), Jump(d)))
    else
      var tree :- DoTree(s, terms, target, frames);
      Some(Then(Phi(x, target), tree))
  }

  // --- where branches go --------------------------------------------------------------

  /** The terminators lead where the graph's edges lead; a conditional branch with both targets equal may have its
      edge listed once or twice. */
  ghost predicate TermsMatch(g: Cfg, terms: seq<Term>) {
    |terms| == g.N() && forall x, t :: 0 <= x < g.N() ==> (t in Targets(terms[x]) <==> t in g.succs[x])
  }

  ghost predicate Setting(g: Cfg, order: seq<nat>, s: Shape, terms: seq<Term>) {
    ShapeOf(g, order, s) && TermsMatch(g, terms)
  }

  lemma TargetIsEdge(g: Cfg, terms: seq<Term>, x: nat, t: nat)
    requires TermsMatch(g, terms) && x < g.N()
    ensures t in Targets(terms[x]) <==> g.Edge(x, t)
  {
  }

  lemma SettingIsWalkable(g: Cfg, order: seq<nat>, s: Shape, terms: seq<Term>)
    requires Setting(g, order, s, terms)
    ensures Walkable(s, terms)
  {
    forall x | 0 <= x < |terms| ensures ChildrenLater(s, x) {
      assert ChildrenOf(s.pos, s.idom, x, s.domChildren[x]);
      forall c | c in s.domChildren[x] ensures c < |s.pos| && s.pos[x] < s.pos[c] {
        assert ParentEarlier(s.pos, s.idom, c) && Defined(s.idom, c);
      }
    }
    forall x, t | 0 <= x < |terms| && t in Targets(terms[x]) ensures t < |terms| {
      TargetIsEdge(g, terms, x, t);
    }
  }

  lemma {:induction false} ForwardPredCounts(pos: seq<nat>, ps: seq<nat>, v: nat, i: nat)
    requires i < |ps| && ps[i] < |pos| && v < |pos| && pos[ps[i]] < pos[v]
    ensures ForwardPreds(pos, ps, v) >= 1
  {
    if i > 0 {
      ForwardPredCounts(pos, ps[1..], v, i - 1);
    }
  }

  lemma {:induction false} TwoForwardPredsCount(pos: seq<nat>, ps: seq<nat>, v: nat, i: nat, j: nat)
    requires i < j < |ps| && ps[i] < |pos| && ps[j] < |pos| && v < |pos|
    requires pos[ps[i]] < pos[v] && pos[ps[j]] < pos[v]
    ensures ForwardPreds(pos, ps, v) >= 2
  {
    if i > 0 {
      TwoForwardPredsCount(pos, ps[1..], v, i - 1, j - 1);
    } else {
      ForwardPredCounts(pos, ps[1..], v, j - 1);
    }
  }

  /** A block that is no merge node is entered forward from one block only. */
  lemma OneForwardPred(g: Cfg, order: seq<nat>, s: Shape, x: nat, y: nat, t: nat)
    requires ShapeOf(g, order, s) && x < g.N() && y < g.N() && t < g.N() && !s.isMerge[t]
    requires g.Edge(x, t) && s.pos[x] < s.pos[t] && g.Edge(y, t) && s.pos[y] < s.pos[t]
    ensures x == y
  {
    EdgeIffPred(g, x, t);
    EdgeIffPred(g, y, t);
    var ps := g.preds[t];
    var i :| 0 <= i < |ps| && ps[i] == x;
    var j :| 0 <= j < |ps| && ps[j] == y;
    if i < j { TwoForwardPredsCount(s.pos, ps, t, i, j); }
    if j < i { TwoForwardPredsCount(s.pos, ps, t, j, i); }
  }

  lemma {:induction false} FirstOccurrence(q: seq<nat>, t: nat) returns (i: nat)
    requires t in q
    ensures i < |q| && q[i] == t && t !in q[..i]
  {
    if q[0] == t {
      i := 0;
    } else {
      assert q == [q[0]] + q[1..];
      var i' := FirstOccurrence(q[1..], t);
      i := i' + 1;
      assert q[..i] == [q[0]] + q[1..][..i'];
    }
  }

  /** A forward edge to a block that is no merge node comes from its immediate dominator. */
  lemma InlineTargetIsChild(g: Cfg, order: seq<nat>, s: Shape, x: nat, t: nat)
    requires ShapeOf(g, order, s) && g.Edge(x, t) && x < g.N() && t < g.N()
    requires s.pos[x] < s.pos[t] && !s.isMerge[t]
    ensures t != 0 && s.idom[t] == x
  {
    OrderIsInjective(g, order, s.pos);
    forall q | PathTo(g, q, t) ensures x in q {
      var i := FirstOccurrence(q, t);
      assert i > 0;
      var p := q[i - 1];
      assert PathTo(g, q[..i], p) && g.Edge(p, q[i]);
      if s.pos[p] < s.pos[t] {
        OneForwardPred(g, order, s, x, p, t);
      } else {
        assert Retreating(g, s.pos, p, t);
      }
    }
    assert StrictlyDominates(g, x, t);
    var o: nat := s.idom[t];
    assert ImmediateDominator(g, o, t);
    DominatorOfPred(g, o, x, t);
    DominatorIsEarlier(g, order, s.pos, o, x);
    DominatorIsEarlier(g, order, s.pos, x, o);
  }

  /** The parent of a merge node dominates every block that branches forward to it. */
  lemma MergeParentDominates(g: Cfg, order: seq<nat>, s: Shape, x: nat, m: nat)
    requires ShapeOf(g, order, s) && g.Edge(x, m) && x < g.N() && m < g.N() && s.pos[x] < s.pos[m]
    ensures m != 0 && 0 <= s.idom[m] < g.N() && Dominates(g, s.idom[m], x)
  {
    OrderIsInjective(g, order, s.pos);
    assert ImmediateDominator(g, s.idom[m], m);
    assert ParentEarlier(s.pos, s.idom, m) && Defined(s.idom, m);
    DominatorOfPred(g, s.idom[m], x, m);
  }

  // --- no branch misses its frame ------------------------------------------------------

  ghost predicate ParentDominates(g: Cfg, s: Shape, m: nat, x: nat) {
    m < |s.idom| && 0 <= s.idom[m] && Dominates(g, s.idom[m], x)
  }

  /** Before the subtree of `x`: the loops of its strict dominators are open, and so are the blocks
      of the merge nodes their subtrees still lead up to. */
  ghost predicate FramesCover(g: Cfg, s: Shape, x: nat, frames: seq<Frame>)
    requires |s.isLoopHeader| == |s.isMerge| == |s.pos| == |s.idom| == g.N() && x < g.N()
  {
    && (forall h: nat :: h < g.N() && s.isLoopHeader[h] && StrictlyDominates(g, h, x) ==> Loop(h) in frames)
    && (forall m: nat ::
          0 < m < g.N() && s.isMerge[m] && s.pos[x] < s.pos[m] && s.idom[m] != x && ParentDominates(g, s, m, x) ==>
            Block(m) in frames)
  }

  /** Before the node `x` itself, with the merge children `ms` still to be opened. */
  ghost predicate NodeCover(g: Cfg, s: Shape, x: nat, ms: seq<nat>, frames: seq<Frame>)
    requires |s.isLoopHeader| == |s.isMerge| == |s.pos| == |s.idom| == g.N() && x < g.N()
  {
    && (forall h: nat :: h < g.N() && s.isLoopHeader[h] && Dominates(g, h, x) ==> Loop(h) in frames)
    && (forall m: nat ::
          0 < m < g.N() && s.isMerge[m] && s.pos[x] < s.pos[m] && ParentDominates(g, s, m, x) ==>
            Block(m) in frames || m in ms)
  }

  lemma TreeToNode(g: Cfg, order: seq<nat>, s: Shape, x: nat, frames: seq<Frame>, frames': seq<Frame>)
    requires ShapeOf(g, order, s) && x < g.N() && FramesCover(g, s, x, frames)
    requires frames' == if s.isLoopHeader[x] then frames + [Loop(x)] else frames
    ensures NodeCover(g, s, x, Merges(s, s.domChildren[x]), frames')
  {
    assert ChildrenOf(s.pos, s.idom, x, s.domChildren[x]);
  }

  lemma NodeToChild(g: Cfg, order: seq<nat>, s: Shape, x: nat, ms: seq<nat>, c: nat, frames: seq<Frame>)
    requires ShapeOf(g, order, s) && x < g.N() && NodeCover(g, s, x, ms, frames)
    requires 0 < c < g.N() && s.idom[c] == x && forall m: nat :: m in ms && m < g.N() ==> s.pos[m] <= s.pos[c]
    ensures FramesCover(g, s, c, frames)
  {
    assert ImmediateDominator(g, x, c);
    assert ParentEarlier(s.pos, s.idom, c) && Defined(s.idom, c);
    forall m: nat | 0 < m < g.N() && s.isMerge[m] && s.idom[m] != c && ParentDominates(g, s, m, c) && s.pos[c] < s.pos[m]
      ensures Block(m) in frames
    {
      assert StrictlyDominates(g, s.idom[m], c);
      assert ParentDominates(g, s, m, x);
    }
  }

  lemma {:induction false} MergesSorted(s: Shape, cs: seq<nat>)
    requires SortedByPos(s.pos, cs)
    ensures SortedByPos(s.pos, Merges(s, cs))
  {
    if cs != [] {
      MergesSorted(s, cs[..|cs| - 1]);
      var ms := Merges(s, cs[..|cs| - 1]);
      forall i | 0 <= i < |ms| ensures s.pos[ms[i]] < s.pos[cs[|cs| - 1]] {
        assert ms[i] in ms;
        var k :| 0 <= k < |cs| - 1 && cs[..|cs| - 1][k] == ms[i];
      }
    }
  }

  /** `ms` is what is left of the merge children of `x` when the last ones have been opened. */
  ghost predicate Pending(s: Shape, x: nat, ms: seq<nat>) {
    x < |s.domChildren| && ms <= Merges(s, s.domChildren[x])
  }

  lemma LastPending(g: Cfg, order: seq<nat>, s: Shape, x: nat, ms: seq<nat>)
    requires ShapeOf(g, order, s) && x < g.N() && Pending(s, x, ms) && ms != []
    ensures var last := ms[|ms| - 1];
            && 0 < last < g.N() && s.idom[last] == x && s.pos[x] < s.pos[last]
            && Pending(s, x, ms[..|ms| - 1]) && s.isMerge[last]
            && forall m: nat :: m in ms && m < g.N() ==> s.pos[m] <= s.pos[last]
    ensures ms[|ms| - 1] !in ms[..|ms| - 1]
  {
    var last := ms[|ms| - 1];
    assert ChildrenOf(s.pos, s.idom, x, s.domChildren[x]);
    LastOfSorted(s, s.domChildren[x], ms);
    assert ParentEarlier(s.pos, s.idom, last) && Defined(s.idom, last);
  }

  lemma LastOfSorted(s: Shape, cs: seq<nat>, ms: seq<nat>)
    requires SortedByPos(s.pos, cs) && ms <= Merges(s, cs) && ms != []
    ensures var last := ms[|ms| - 1];
            && last in cs && last < |s.isMerge| && s.isMerge[last] && last !in ms[..|ms| - 1]
            && ms[..|ms| - 1] <= Merges(s, cs)
            && forall m: nat :: m in ms && m < |s.pos| ==> last < |s.pos| && s.pos[m] <= s.pos[last]
  {
    hide Merges;
    var all, k := Merges(s, cs), |ms| - 1;
    MergesSorted(s, cs);
    assert all[k] == ms[k] && all[k] in all;
    forall i | 0 <= i < |ms| ensures s.pos[ms[i]] <= s.pos[ms[k]] && (i < k ==> ms[i] != ms[k]) {
      assert all[i] == ms[i];
    }
    assert all[..k] == ms[..k];
  }

  lemma NodeOpensLast(g: Cfg, s: Shape, x: nat, ms: seq<nat>, frames: seq<Frame>)
    requires |s.isLoopHeader| == |s.isMerge| == |s.pos| == |s.idom| == g.N() && x < g.N()
    requires ms != [] && NodeCover(g, s, x, ms, frames)
    ensures NodeCover(g, s, x, ms[..|ms| - 1], frames + [Block(ms[|ms| - 1])])
  {
    assert ms == ms[..|ms| - 1] + [ms[|ms| - 1]];
  }

  lemma NodeOpensArm(g: Cfg, s: Shape, x: nat, frames: seq<Frame>)
    requires |s.isLoopHeader| == |s.isMerge| == |s.pos| == |s.idom| == g.N() && x < g.N()
    requires NodeCover(g, s, x, [], frames)
    ensures NodeCover(g, s, x, [], frames + [Arm])
  {
  }

  lemma {:induction false} TreeSucceeds(g: Cfg, order: seq<nat>, s: Shape, terms: seq<Term>, x: nat, frames: seq<Frame>)
    requires Setting(g, order, s, terms) && Walkable(s, terms) && x < g.N() && FramesCover(g, s, x, frames)
    ensures DoTree(s, terms, x, frames).Some?
    decreases |terms| - s.pos[x], 2, 0
  {
    var frames' := if s.isLoopHeader[x] then frames + [Loop(x)] else frames;
    TreeToNode(g, order, s, x, frames, frames');
    NodeSucceeds(g, order, s, terms, x, Merges(s, s.domChildren[x]), frames');
  }

  lemma {:induction false} NodeSucceeds(g: Cfg, order: seq<nat>, s: Shape, terms: seq<Term>, x: nat, ms: seq<nat>, frames: seq<Frame>)
    requires Setting(g, order, s, terms) && Walkable(s, terms) && x < g.N()
    requires Pending(s, x, ms) && NodeCover(g, s, x, ms, frames)
    ensures NodeWithin(s, terms, x, ms, frames).Some?
    decreases |terms| - s.pos[x], 1, |ms|
  {
    hide ShapeOf, NodeCover, FramesCover, Merges;
    if ms != [] {
      var last := ms[|ms| - 1];
      LastPending(g, order, s, x, ms);
      assert NodeCover(g, s, x, ms[..|ms| - 1], frames + [Block(last)]) by { NodeOpensLast(g, s, x, ms, frames); }
      NodeSucceeds(g, order, s, terms, x, ms[..|ms| - 1], frames + [Block(last)]);
      NodeToChild(g, order, s, x, ms, last, frames);
      TreeSucceeds(g, order, s, terms, last, frames);
    } else {
      forall t: nat | t in Targets(terms[x])
        ensures t < g.N() && DoBranch(s, terms, x, t, frames).Some? && DoBranch(s, terms, x, t, frames + [Arm]).Some?
      {
        TargetIsEdge(g, terms, x, t);
        BranchSucceeds(g, order, s, terms, x, t, frames);
        NodeOpensArm(g, s, x, frames);
        BranchSucceeds(g, order, s, terms, x, t, frames + [Arm]);
      }
    }
  }

  lemma {:induction false} BranchSucceeds(g: Cfg, order: seq<nat>, s: Shape, terms: seq<Term>, x: nat, t: nat, frames: seq<Frame>)
    requires Setting(g, order, s, terms) && Walkable(s, terms) && x < g.N() && g.Edge(x, t) && t < g.N()
    requires NodeCover(g, s, x, [], frames)
    ensures DoBranch(s, terms, x, t, frames).Some?
    decreases |terms| - s.pos[x], 0, 0
  {
    if s.pos[t] <= s.pos[x] {
      assert Retreating(g, s.pos, x, t);
    } else if s.isMerge[t] {
      MergeParentDominates(g, order, s, x, t);
      assert ParentDominates(g, s, t, x);
    } else {
      InlineTargetIsChild(g, order, s, x, t);
      NodeToChild(g, order, s, x, [], t, frames);
      TreeSucceeds(g, order, s, terms, t, frames);
    }
  }

  /** The walk of an accepted graph never reports a missing branch target. */
  lemma WalkSucceeds(g: Cfg, order: seq<nat>, s: Shape, terms: seq<Term>)
    requires Setting(g, order, s, terms)
    ensures Walkable(s, terms) && 0 < |terms| && DoTree(s, terms, 0, []).Some?
  {
    SettingIsWalkable(g, order, s, terms);
    OrderIsInjective(g, order, s.pos);
    assert PathTo(g, [0], 0);
    forall h: nat ensures !StrictlyDominates(g, h, 0) {}
    assert FramesCover(g, s, 0, []);
    TreeSucceeds(g, order, s, terms, 0, []);
  }

  // --- how often each block is emitted ------------------------------------------------

  /** How often the code runs the statements of `b`. */
  function Emissions(c: Code, b: nat): nat {
    match c
    case Run(x) => if x == b then 1 else 0
    case Then(a, d) => Emissions(a, b) + Emissions(d, b)
    case LoopOf(_, d) => Emissions(d, b)
    case BlockOf(_, d) => Emissions(d, b)
    case IfOf(_, d, e) => Emissions(d, b) + Emissions(e, b)
    case _ => 0
  }

  /** A child that is no merge node is the target of an edge out of its parent. */
  lemma PlainChildIsTarget(g: Cfg, order: seq<nat>, s: Shape, x: nat, c: nat)
    requires ShapeOf(g, order, s) && x < g.N() && 0 < c < g.N() && s.idom[c] == x && !s.isMerge[c]
    ensures g.Edge(x, c) && s.pos[x] < s.pos[c]
  {
    assert Preceded(g, s.pos, c);
    var p: nat :| HasEarlierPred(g, s.pos, p, c);
    InlineTargetIsChild(g, order, s, p, c);
  }

  ghost function One(p: bool): nat { if p then 1 else 0 }

  /** Both arms of the branch out of `x` place the same block inline. */
  ghost predicate Doubled(s: Shape, terms: seq<Term>, x: nat) {
    && x < |terms| && terms[x].If? && terms[x].then_ == terms[x].else_
    && x < |s.pos| && terms[x].then_ < |s.pos| && terms[x].then_ < |s.isMerge|
    && s.pos[x] < s.pos[terms[x].then_] && !s.isMerge[terms[x].then_]
  }

  ghost predicate NoneDoubled(s: Shape, terms: seq<Term>) { forall x: nat :: !Doubled(s, terms, x) }

  ghost function Above(s: Shape, b: nat): nat { if 0 < b < |s.idom| && 0 <= s.idom[b] then s.idom[b] else 0 }

  /** What `n` emissions of the parent of `b` make of `b`; the entry has no parent. */
  ghost function Scaled(s: Shape, terms: seq<Term>, b: nat, n: nat): nat {
    if b == 0 then 0
    else if Doubled(s, terms, Above(s, b)) && terms[Above(s, b)].then_ == b then 2 * n
    else n
  }

  /** Two to the number of doubled branches above `b` in the dominator tree. */
  ghost function Copies(s: Shape, terms: seq<Term>, b: nat): (n: nat)
    ensures 1 <= n
    decreases if b < |s.pos| then s.pos[b] else 0
  {
    var a := Above(s, b);
    if 0 < b < |s.pos| && a < |s.pos| && s.pos[a] < s.pos[b] then Scaled(s, terms, b, Copies(s, terms, a)) else 1
  }

  /** Emissions of `b` that the node `x` itself causes, with the merge children `ms` still to come. */
  ghost function Share(s: Shape, terms: seq<Term>, x: nat, ms: seq<nat>, b: nat): nat {
    if b == 0 || x != Above(s, b) then 0
    else if b < |s.isMerge| && s.isMerge[b] then One(b in ms)
    else Scaled(s, terms, b, 1)
  }

  /** Is `b` what a branch from `x` to `t` emits in place? */
  ghost predicate Inlines(s: Shape, x: nat, t: nat, b: nat) {
    t == b && x < |s.pos| && t < |s.pos| && t < |s.isMerge| && s.pos[x] < s.pos[t] && !s.isMerge[t]
  }

  /** A target placed inline is a child of the block it is placed in. */
  lemma InlinesChild(g: Cfg, order: seq<nat>, s: Shape, terms: seq<Term>, x: nat, t: nat, b: nat)
    requires Setting(g, order, s, terms) && x < g.N() && b < g.N() && t in Targets(terms[x]) && Inlines(s, x, t, b)
    ensures b != 0 && Above(s, b) == x && !s.isMerge[b]
  {
    TargetIsEdge(g, terms, x, t);
    InlineTargetIsChild(g, order, s, x, t);
  }

  /** The terminator of a block places inline exactly the children that are no merge nodes. */
  lemma LeafShare(g: Cfg, order: seq<nat>, s: Shape, terms: seq<Term>, x: nat, b: nat)
    requires Setting(g, order, s, terms) && x < g.N() && b < g.N()
    ensures Share(s, terms, x, [], b) ==
            match terms[x]
            case If(p, q) => One(Inlines(s, x, p, b)) + One(Inlines(s, x, q, b))
            case Goto(t) => One(Inlines(s, x, t, b))
            case Return => 0
  {
    forall t | t in Targets(terms[x]) && Inlines(s, x, t, b) ensures b != 0 && Above(s, b) == x && !s.isMerge[b] {
      InlinesChild(g, order, s, terms, x, t, b);
    }
    if b != 0 && Above(s, b) == x && !s.isMerge[b] {
      assert ImmediateDominator(g, s.idom[b], b);
      PlainChildIsTarget(g, order, s, x, b);
      TargetIsEdge(g, terms, x, b);
    }
    match terms[x]
    case If(p, q) => assert p in Targets(terms[x]) && q in Targets(terms[x]);
    case Goto(t) => assert t in Targets(terms[x]);
    case Return =>
  }

  lemma {:induction false} TreeCounts(g: Cfg, order: seq<nat>, s: Shape, terms: seq<Term>, x: nat, frames: seq<Frame>, b: nat)
    requires Setting(g, order, s, terms) && Walkable(s, terms) && x < g.N() && b < g.N() && DoTree(s, terms, x, frames).Some?
    ensures var c := DoTree(s, terms, x, frames).value;
            Emissions(c, b) == Scaled(s, terms, b, Emissions(c, Above(s, b))) + One(x == b)
    decreases |terms| - s.pos[x], 2, 0
  {
    hide ShapeOf;
    var ms := Merges(s, s.domChildren[x]);
    NodeCounts(g, order, s, terms, x, ms, if s.isLoopHeader[x] then frames + [Loop(x)] else frames, b);
    TreeShare(g, order, s, terms, x, b);
  }

  lemma TreeShare(g: Cfg, order: seq<nat>, s: Shape, terms: seq<Term>, x: nat, b: nat)
    requires Setting(g, order, s, terms) && x < g.N() && b < g.N()
    ensures Share(s, terms, x, Merges(s, s.domChildren[x]), b) == Scaled(s, terms, b, One(x == Above(s, b)))
  {
    assert ChildrenOf(s.pos, s.idom, x, s.domChildren[x]);
    if b != 0 { assert ImmediateDominator(g, s.idom[b], b); }
  }

  lemma LastShare(s: Shape, terms: seq<Term>, x: nat, ms: seq<nat>, b: nat)
    requires ms != []
    requires var last := ms[|ms| - 1]; 0 < last < |s.idom| && s.idom[last] == x && last < |s.isMerge| && s.isMerge[last] && last !in ms[..|ms| - 1]
    ensures Share(s, terms, x, ms, b) == Share(s, terms, x, ms[..|ms| - 1], b) + One(ms[|ms| - 1] == b)
  {
    assert ms == ms[..|ms| - 1] + [ms[|ms| - 1]];
  }

  lemma {:induction false} NodeCounts(g: Cfg, order: seq<nat>, s: Shape, terms: seq<Term>, x: nat, ms: seq<nat>, frames: seq<Frame>, b: nat)
    requires Setting(g, order, s, terms) && Walkable(s, terms) && x < g.N() && b < g.N()
    requires Pending(s, x, ms) && NodeWithin(s, terms, x, ms, frames).Some?
    ensures var c := NodeWithin(s, terms, x, ms, frames).value;
            Emissions(c, b) + Scaled(s, terms, b, One(x == Above(s, b))) ==
            Scaled(s, terms, b, Emissions(c, Above(s, b))) + One(x == b) + Share(s, terms, x, ms, b)
    decreases |terms| - s.pos[x], 1, |ms|
  {
    hide ShapeOf, Merges, Scaled, Above;
    if ms != [] {
      var last, rest, a := ms[|ms| - 1], ms[..|ms| - 1], Above(s, b);
      LastPending(g, order, s, x, ms);
      assert ms == rest + [last];
      LastShare(s, terms, x, ms, b);
      ScaledSum(s, terms, b, Emissions(NodeWithin(s, terms, x, rest, frames + [Block(last)]).value, a),
                Emissions(DoTree(s, terms, last, frames).value, a));
      NodeCounts(g, order, s, terms, x, rest, frames + [Block(last)], b);
      TreeCounts(g, order, s, terms, last, frames, b);
    } else {
      LeafCounts(g, order, s, terms, x, frames, b);
    }
  }

  lemma ScaledSum(s: Shape, terms: seq<Term>, b: nat, m: nat, n: nat)
    ensures Scaled(s, terms, b, m + n) == Scaled(s, terms, b, m) + Scaled(s, terms, b, n)
  {
  }

  lemma {:induction false} LeafCounts(g: Cfg, order: seq<nat>, s: Shape, terms: seq<Term>, x: nat, frames: seq<Frame>, b: nat)
    requires Setting(g, order, s, terms) && Walkable(s, terms) && x < g.N() && b < g.N()
    requires NodeWithin(s, terms, x, [], frames).Some?
    ensures var c := NodeWithin(s, terms, x, [], frames).value;
            Emissions(c, b) + Scaled(s, terms, b, One(x == Above(s, b))) ==
            Scaled(s, terms, b, Emissions(c, Above(s, b))) + One(x == b) + Share(s, terms, x, [], b)
    decreases |terms| - s.pos[x], 0, 1
  {
    hide ShapeOf, Inlines, Share, Above, Scaled, DoBranch, NodeWithin, Emissions, One;
    LeafShare(g, order, s, terms, x, b);
    var a := Above(s, b);
    LeafEmissions(s, terms, x, frames, b);
    LeafEmissions(s, terms, x, frames, a);
    match terms[x]
    case If(p, q) =>
      BranchCounts(g, order, s, terms, x, p, frames + [Arm], b);
      BranchCounts(g, order, s, terms, x, q, frames + [Arm], b);
      var m, n := Emissions(DoBranch(s, terms, x, p, frames + [Arm]).value, a), Emissions(DoBranch(s, terms, x, q, frames + [Arm]).value, a);
      ScaledSum(s, terms, b, m, n);
      ScaledSum(s, terms, b, One(x == a), m + n);
    case Goto(t) =>
      BranchCounts(g, order, s, terms, x, t, frames, b);
      ScaledSum(s, terms, b, One(x == a), Emissions(DoBranch(s, terms, x, t, frames).value, a));
    case Return =>
  }

  lemma LeafEmissions(s: Shape, terms: seq<Term>, x: nat, frames: seq<Frame>, b: nat)
    requires Walkable(s, terms) && x < |terms| && NodeWithin(s, terms, x, [], frames).Some?
    ensures terms[x].If? ==>
              var p, q, f := terms[x].then_, terms[x].else_, frames + [Arm];
              && p < |terms| && q < |terms| && DoBranch(s, terms, x, p, f).Some? && DoBranch(s, terms, x, q, f).Some?
              && Emissions(NodeWithin(s, terms, x, [], frames).value, b) ==
                 One(x == b) + Emissions(DoBranch(s, terms, x, p, f).value, b) + Emissions(DoBranch(s, terms, x, q, f).value, b)
    ensures terms[x].Goto? ==>
              var t := terms[x].target;
              && t < |terms| && DoBranch(s, terms, x, t, frames).Some?
              && Emissions(NodeWithin(s, terms, x, [], frames).value, b) == One(x == b) + Emissions(DoBranch(s, terms, x, t, frames).value, b)
    ensures terms[x].Return? ==> Emissions(NodeWithin(s, terms, x, [], frames).value, b) == One(x == b)
  {
    hide DoBranch;
    match terms[x]
    case If(p, q) => assert p in Targets(terms[x]) && q in Targets(terms[x]);
    case Goto(t) => assert t in Targets(terms[x]);
    case Return =>
  }

  lemma {:induction false} BranchCounts(g: Cfg, order: seq<nat>, s: Shape, terms: seq<Term>, x: nat, t: nat, frames: seq<Frame>, b: nat)
    requires Setting(g, order, s, terms) && Walkable(s, terms) && x < g.N() && t < g.N() && b < g.N()
    requires DoBranch(s, terms, x, t, frames).Some?
    ensures var c := DoBranch(s, terms, x, t, frames).value;
            Emissions(c, b) == Scaled(s, terms, b, Emissions(c, Above(s, b))) + One(Inlines(s, x, t, b))
    decreases |terms| - s.pos[x], 0, 0
  {
    if s.pos[x] < s.pos[t] && !s.isMerge[t] {
      TreeCounts(g, order, s, terms, t, frames, b);
    }
  }

  /** How often the whole walk emits the statements of a block: twice for every doubled branch above it. */
  lemma {:induction false} WalkEmitsEveryBlock(g: Cfg, order: seq<nat>, s: Shape, terms: seq<Term>, b: nat)
    requires Setting(g, order, s, terms) && b < g.N()
    ensures Walkable(s, terms) && 0 < |terms| && DoTree(s, terms, 0, []).Some?
    ensures Emissions(DoTree(s, terms, 0, []).value, b) == Copies(s, terms, b)
    decreases s.pos[b]
  {
    hide DoTree;
    WalkSucceeds(g, order, s, terms);
    TreeCounts(g, order, s, terms, 0, [], b);
    if b != 0 {
      assert ImmediateDominator(g, s.idom[b], b) && ParentEarlier(s.pos, s.idom, b) && Defined(s.idom, b);
      WalkEmitsEveryBlock(g, order, s, terms, s.idom[b]);
    }
  }

  lemma {:induction false} SingleCopies(s: Shape, terms: seq<Term>, b: nat)
    requires NoneDoubled(s, terms)
    ensures Copies(s, terms, b) == 1
    decreases if b < |s.pos| then s.pos[b] else 0
  {
    var a := Above(s, b);
    if 0 < b < |s.pos| && a < |s.pos| && s.pos[a] < s.pos[b] { SingleCopies(s, terms, a); }
  }

  /** Every block is emitted exactly once if and only if no branch is doubled. */
  lemma WalkEmitsEveryBlockOnce(g: Cfg, order: seq<nat>, s: Shape, terms: seq<Term>)
    requires Setting(g, order, s, terms)
    ensures Walkable(s, terms) && 0 < |terms| && DoTree(s, terms, 0, []).Some?
    ensures (forall b: nat :: b < g.N() ==> Emissions(DoTree(s, terms, 0, []).value, b) == 1) <==> NoneDoubled(s, terms)
  {
    hide DoTree, Emissions;
    WalkSucceeds(g, order, s, terms);
    forall b: nat | b < g.N() ensures Emissions(DoTree(s, terms, 0, []).value, b) == Copies(s, terms, b) {
      WalkEmitsEveryBlock(g, order, s, terms, b);
    }
    if d: nat :| Doubled(s, terms, d) {
      var p := terms[d].then_;
      assert p in Targets(terms[d]);
      TargetIsEdge(g, terms, d, p);
      InlinesChild(g, order, s, terms, d, p, p);
      assert Copies(s, terms, p) == 2 * Copies(s, terms, d);
      assert Emissions(DoTree(s, terms, 0, []).value, p) != 1;
    } else {
      forall b: nat ensures Copies(s, terms, b) == 1 { SingleCopies(s, terms, b); }
    }
  }

  /** A graph with a doubled branch: both arms of the entry lead to the only other block, by one listed edge. */
  const DOUBLED: Cfg := Cfg([[1], []], [[], [0]])
  const DOUBLED_TERMS: seq<Term> := [If(1, 1), Return]

  lemma DoubledHasNoCycle(p: seq<nat>)
    requires Path(DOUBLED, p) && 1 < |p|
    ensures p[0] != p[|p| - 1]
  {
    assert DOUBLED.Edge(p[0], p[1]) && (2 < |p| ==> DOUBLED.Edge(p[1], p[2]));
  }

  lemma DoubledIsAcceptable()
    ensures WellFormed(DOUBLED) && Reducible(DOUBLED) && forall b :: 0 <= b < DOUBLED.N() ==> Reachable(DOUBLED, b)
  {
    assert PathTo(DOUBLED, [0], 0) && PathTo(DOUBLED, [0, 1], 1);
    hide Path;
    forall p | Path(DOUBLED, p) && 1 < |p| ensures p[0] != p[|p| - 1] { DoubledHasNoCycle(p); }
  }

  lemma DoubledIsTwice(order: seq<nat>, s: Shape)
    requires ShapeOf(DOUBLED, order, s)
    ensures Setting(DOUBLED, order, s, DOUBLED_TERMS) && Doubled(s, DOUBLED_TERMS, 0) && Copies(s, DOUBLED_TERMS, 1) == 2
  {
    var g := DOUBLED;
    OrderIsInjective(g, order, s.pos);
    assert ParentEarlier(s.pos, s.idom, 1) && Defined(s.idom, 1);
    assert ForwardPreds(s.pos, [0][1..], 1) == 0;
    assert Copies(s, DOUBLED_TERMS, 0) == 1;
  }

  /** The graph is accepted, and the walk emits its second block twice. */
  method EmitsTwice() returns (r: ShapeResult, ghost order: seq<nat>)
    ensures r.Accepted? && Setting(DOUBLED, order, r.shape, DOUBLED_TERMS) && Doubled(r.shape, DOUBLED_TERMS, 0)
    ensures Walkable(r.shape, DOUBLED_TERMS) && DoTree(r.shape, DOUBLED_TERMS, 0, []).Some?
    ensures Emissions(DoTree(r.shape, DOUBLED_TERMS, 0, []).value, 1) == 2
  {
    hide ShapeOf, Reducible, Reachable, WellFormed, DoTree, Emissions;
    DoubledIsAcceptable();
    r, order := NewShape(DOUBLED);
    DoubledIsTwice(order, r.shape);
    WalkEmitsEveryBlock(DOUBLED, order, r.shape, DOUBLED_TERMS, 1);
  }
}
