/** The walk as the pass runs it: one frame stack pushed and popped in place, events emitted as it goes. */
module Walkers {
  import opened Relooper
  import opened Shapes
  import opened Wrappers

  class Walker {
    const shape: Shape
    const terms: seq<Term>
    var frames: seq<Frame>
    var events: seq<Event>

    constructor (shape: Shape, terms: seq<Term>)
      ensures this.shape == shape && this.terms == terms && frames == [] && events == []
    {
      this.shape, this.terms, frames, events := shape, terms, [], [];
    }

    /** The new state after emitting `code`, or nothing known after an error. */
    twostate predicate Emitted(new code: Option<Code>, ok: bool)
      reads this
    {
      && ok == code.Some?
      && (ok ==> frames == old(frames) && events == old(events) + Flatten(code.value))
    }

    method Run() returns (ok: bool)
      requires Walkable(shape, terms) && 0 < |terms|
      modifies this`frames, this`events
      ensures Emitted(DoTree(shape, terms, 0, old(frames)), ok)
    {
      ok := WalkTree(0);
    }

    method WalkTree(x: nat) returns (ok: bool)
      requires Walkable(shape, terms) && x < |terms|
      modifies this`frames, this`events
      ensures Emitted(DoTree(shape, terms, x, old(frames)), ok)
      decreases |terms| - shape.pos[x], 2, 0
    {
      var mergeChildren := Merges(shape, shape.domChildren[x]);
      if shape.isLoopHeader[x] {
        frames := frames + [Loop(x)];
        events := events + [OpenLoop(x)];
        ok := WalkNode(x, mergeChildren);
        if !ok { return; }
        events := events + [Close];
        frames := frames[..|frames| - 1];
      } else {
        ok := WalkNode(x, mergeChildren);
      }
    }

    method WalkNode(x: nat, mergeChildren: seq<nat>) returns (ok: bool)
      requires Walkable(shape, terms) && x < |terms| && forall m :: m in mergeChildren ==> m in shape.domChildren[x]
      modifies this`frames, this`events
      ensures Emitted(NodeWithin(shape, terms, x, mergeChildren, old(frames)), ok)
      decreases |terms| - shape.pos[x], 1, |mergeChildren|
    {
      if mergeChildren != [] {
        var last, rest := mergeChildren[|mergeChildren| - 1], mergeChildren[..|mergeChildren| - 1];
        assert last in mergeChildren && ChildrenLater(shape, x);
        frames := frames + [Block(last)];
        events := events + [OpenBlock(last)];
        ok := WalkNode(x, rest);
        if !ok { return; }
        events := events + [Close];
        frames := frames[..|frames| - 1];
        ok := WalkTree(last);
      } else {
        ok := WalkLeaf(x);
      }
    }

    method WalkLeaf(x: nat) returns (ok: bool)
      requires Walkable(shape, terms) && x < |terms|
      modifies this`frames, this`events
      ensures Emitted(NodeWithin(shape, terms, x, [], old(frames)), ok)
      decreases |terms| - shape.pos[x], 0, 2
    {
      events := events + [Stmts(x)];
      match terms[x]
      case If(then_, else_) =>
        assert then_ in Targets(terms[x]) && else_ in Targets(terms[x]);
        ok := WalkArms(x, then_, else_);
      case Goto(t) =>
        assert t in Targets(terms[x]);
        ok := WalkBranch(x, t);
      case Return =>
        events := events + [Ret(x)];
        ok := true;
    }

    method WalkArms(x: nat, then_: nat, else_: nat) returns (ok: bool)
      requires Walkable(shape, terms) && x < |terms| && then_ < |terms| && else_ < |terms|
      modifies this`frames, this`events
      ensures var inner := old(frames) + [Arm];
              var thn, els := DoBranch(shape, terms, x, then_, inner), DoBranch(shape, terms, x, else_, inner);
              && ok == (thn.Some? && els.Some?)
              && (ok ==> frames == old(frames) && events == old(events) + Flatten(IfOf(x, thn.value, els.value)))
      decreases |terms| - shape.pos[x], 0, 1
    {
      events := events + [OpenIf(x)];
      frames := frames + [Arm];
      ok := WalkBranch(x, then_);
      if !ok { return; }
      events := events + [ElseArm];
      ok := WalkBranch(x, else_);
      if !ok { return; }
      events := events + [Close];
      frames := frames[..|frames| - 1];
    }

    method WalkBranch(x: nat, target: nat) returns (ok: bool)
      requires Walkable(shape, terms) && x < |terms| && target < |terms|
      modifies this`frames, this`events
      ensures Emitted(DoBranch(shape, terms, x, target, old(frames)), ok)
      decreases |terms| - shape.pos[x], 0, 0
    {
      events := events + [PhiMoves(x, target)];
      if shape.pos[target] <= shape.pos[x] {
        var depth := FindFrame(Loop(target));
        ok := depth.Some?;
        if ok { events := events + [Br(depth.value)]; }
      } else if shape.isMerge[target] {
        var depth := FindFrame(Block(target));
        ok := depth.Some?;
        if ok { events := events + [Br(depth.value)]; }
      } else {
        ok := WalkTree(target);
      }
    }

    /** Search the frame stack from the innermost frame outward. */
    method FindFrame(f: Frame) returns (depth: Option<nat>)
      ensures depth == DepthOf(frames, f)
    {
      for d := 0 to |frames|
        invariant forall k :: |frames| - d <= k < |frames| ==> frames[k] != f
      {
        if frames[|frames| - 1 - d] == f {
          DepthIsUnique(frames, f, d);
          return Some(d);
        }
      }
      return None;
    }
  }

  lemma DepthIsUnique(frames: seq<Frame>, f: Frame, d: nat)
    requires d < |frames| && frames[|frames| - 1 - d] == f
    requires forall k :: |frames| - d <= k < |frames| ==> frames[k] != f
    ensures DepthOf(frames, f) == Some(d)
  {
  }
}
