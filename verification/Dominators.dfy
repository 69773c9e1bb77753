/** Immediate dominators by the iteration of Cooper, Harvey and Kennedy ("A Simple, Fast Dominance
    Algorithm"), as the structured-control-flow pass runs it: termination, and exactness of the
    tree it returns. */
module Dominators {
  import opened Cfgs

  const UNDEF: int := -1

  predicate Defined(idom: seq<int>, b: nat) {
    b < |idom| && idom[b] != UNDEF
  }

  /** Defined entries point to defined entries placed strictly earlier; the entry is its own parent. */
  ghost predicate Tree(pos: seq<nat>, idom: seq<int>) {
    && 0 < |idom| == |pos|
    && idom[0] == 0
    && forall b :: 0 < b < |idom| ==> ParentEarlier(pos, idom, b)
  }

  ghost predicate ParentEarlier(pos: seq<nat>, idom: seq<int>, b: nat) {
    b < |idom| && b < |pos| && idom[b] != UNDEF ==>
      0 <= idom[b] < |idom| && idom[b] < |pos| && idom[idom[b]] != UNDEF && pos[idom[b]] < pos[b]
  }

  ghost function Parent(pos: seq<nat>, idom: seq<int>, b: nat): (p: nat)
    requires Tree(pos, idom) && Defined(idom, b)
    ensures Defined(idom, p) && p == idom[b] && (b != 0 ==> pos[p] < pos[b])
  {
    assert b != 0 ==> ParentEarlier(pos, idom, b);
    idom[b]
  }

  /** `a` is `b` or one of its ancestors in the tree. */
  ghost predicate Anc(pos: seq<nat>, idom: seq<int>, a: nat, b: nat)
    requires Tree(pos, idom) && Defined(idom, b)
    decreases pos[b]
  {
    a == b || (b != 0 && Anc(pos, idom, a, Parent(pos, idom, b)))
  }

  lemma {:induction false} AncBasics(pos: seq<nat>, idom: seq<int>, a: nat, b: nat)
    requires Tree(pos, idom) && Defined(idom, b) && Anc(pos, idom, a, b)
    ensures Defined(idom, a) && pos[a] <= pos[b] && (a != b ==> pos[a] < pos[b])
    decreases pos[b]
  {
    if a != b {
      AncBasics(pos, idom, a, Parent(pos, idom, b));
    }
  }

  lemma {:induction false} AncTransitive(pos: seq<nat>, idom: seq<int>, a: nat, b: nat, c: nat)
    requires Tree(pos, idom) && Defined(idom, c) && Defined(idom, b)
    requires Anc(pos, idom, a, b) && Anc(pos, idom, b, c)
    ensures Anc(pos, idom, a, c)
    decreases pos[c]
  {
    if b != c {
      AncTransitive(pos, idom, a, b, Parent(pos, idom, c));
    }
  }

  /** Two ancestors of one node are ordered by position. */
  lemma {:induction false} AncLinear(pos: seq<nat>, idom: seq<int>, a: nat, b: nat, c: nat)
    requires Tree(pos, idom) && Defined(idom, c) && Defined(idom, b)
    requires Anc(pos, idom, a, c) && Anc(pos, idom, b, c) && a < |pos| && pos[a] <= pos[b]
    ensures Anc(pos, idom, a, b)
    decreases pos[c]
  {
    if b != c {
      if a == c {
        AncBasics(pos, idom, b, c);
        assert false;
      }
      AncLinear(pos, idom, a, b, Parent(pos, idom, c));
    }
  }

  lemma TreeUpdate(pos: seq<nat>, idom: seq<int>, c: nat, r: nat)
    requires Tree(pos, idom) && Defined(idom, r) && 0 < c < |idom| && pos[r] < pos[c]
    ensures Tree(pos, idom[c := r])
  {
    var idom' := idom[c := r];
    forall b | 0 < b < |idom'| ensures ParentEarlier(pos, idom', b) {
      assert ParentEarlier(pos, idom, b);
    }
  }

  /** Replacing `idom[c]` by one of its own ancestors only shortens ancestor chains, and leaves
      the chain of any node that does not pass through `c` alone. */
  lemma {:induction false} RaiseShrinks(pos: seq<nat>, idom: seq<int>, c: nat, r: nat, u: nat, x: nat)
    requires Tree(pos, idom) && 0 < c && Defined(idom, c) && Anc(pos, idom, r, Parent(pos, idom, c))
    requires Tree(pos, idom[c := r]) && Defined(idom, x) && Anc(pos, idom[c := r], u, x)
    ensures Anc(pos, idom, u, x)
    decreases pos[x]
  {
    if u != x {
      if x == c {
        AncBasics(pos, idom, r, Parent(pos, idom, c));
        RaiseShrinks(pos, idom, c, r, u, r);
        AncTransitive(pos, idom, u, r, Parent(pos, idom, c));
      } else {
        RaiseShrinks(pos, idom, c, r, u, Parent(pos, idom, x));
      }
    }
  }

  /** A chain that stays above position `pos[c]` on the way to `u` survives any change at `c`. */
  lemma {:induction false} ChainSurvives(pos: seq<nat>, idom: seq<int>, c: nat, r: nat, u: nat, x: nat)
    requires Tree(pos, idom) && 0 < c < |pos|
    requires Tree(pos, idom[c := r]) && Defined(idom, x) && Anc(pos, idom, u, x)
    requires u < |pos| && (pos[c] <= pos[u] || pos[x] < pos[c])
    ensures Anc(pos, idom[c := r], u, x)
    decreases pos[x]
  {
    if u != x {
      AncBasics(pos, idom, u, Parent(pos, idom, x));
      assert x != c;
      ChainSurvives(pos, idom, c, r, u, Parent(pos, idom, x));
    }
  }

  predicate Injective(pos: seq<nat>) {
    forall x, y :: 0 <= x < |pos| && 0 <= y < |pos| && pos[x] == pos[y] ==> x == y
  }

  // --- intersect ---------------------------------------------------------------

  /** The nearest common ancestor of two defined nodes. */
  method Intersect(pos: seq<nat>, idom: seq<int>, a0: nat, b0: nat) returns (a: nat)
    requires Tree(pos, idom) && Defined(idom, a0) && Defined(idom, b0)
    requires Injective(pos)
    requires pos[0] == 0
    ensures Defined(idom, a) && Anc(pos, idom, a, a0) && Anc(pos, idom, a, b0)
    ensures forall u :: Anc(pos, idom, u, a0) && Anc(pos, idom, u, b0) ==> Anc(pos, idom, u, a)
  {
    a := a0;
    var b: nat := b0;
    while a != b
      invariant Defined(idom, a) && Defined(idom, b)
      invariant Anc(pos, idom, a, a0) && Anc(pos, idom, b, b0)
      invariant forall u :: Anc(pos, idom, u, a0) && Anc(pos, idom, u, b0) ==>
                              Anc(pos, idom, u, a) && Anc(pos, idom, u, b)
      decreases pos[a] + pos[b]
    {
      assert pos[a] != pos[b];
      while pos[a] > pos[b]
        invariant Defined(idom, a) && Anc(pos, idom, a, a0)
        invariant forall u :: Anc(pos, idom, u, a0) && Anc(pos, idom, u, b0) ==>
                                Anc(pos, idom, u, a) && Anc(pos, idom, u, b)
        decreases pos[a]
      {
        CommonAncestorsClimb(pos, idom, a, b);
        AncTransitive(pos, idom, Parent(pos, idom, a), a, a0);
        a := idom[a];
      }
      while pos[b] > pos[a]
        invariant Defined(idom, b) && Anc(pos, idom, b, b0)
        invariant forall u :: Anc(pos, idom, u, a0) && Anc(pos, idom, u, b0) ==>
                                Anc(pos, idom, u, a) && Anc(pos, idom, u, b)
        decreases pos[b]
      {
        CommonAncestorsClimb(pos, idom, b, a);
        AncTransitive(pos, idom, Parent(pos, idom, b), b, b0);
        b := idom[b];
      }
    }
  }

  /** The lower of two fingers is no common ancestor, so stepping it up loses none. */
  lemma CommonAncestorsClimb(pos: seq<nat>, idom: seq<int>, a: nat, b: nat)
    requires Tree(pos, idom) && Defined(idom, a) && Defined(idom, b) && pos[a] > pos[b] && pos[0] == 0
    ensures a != 0
    ensures forall u :: Anc(pos, idom, u, a) && Anc(pos, idom, u, b) ==> Anc(pos, idom, u, Parent(pos, idom, a))
  {
    forall u | Anc(pos, idom, u, a) && Anc(pos, idom, u, b) ensures Anc(pos, idom, u, Parent(pos, idom, a)) {
      AncBasics(pos, idom, u, b);
    }
  }

  // --- what one pass keeps -------------------------------------------------------

  /** `u` is an ancestor of every predecessor of `x` that is defined so far. */
  ghost predicate CommonAnc(g: Cfg, pos: seq<nat>, idom: seq<int>, x: nat, u: nat)
    requires Tree(pos, idom) && x < |g.preds|
  {
    forall p :: p in g.preds[x] && Defined(idom, p) ==> Anc(pos, idom, u, p)
  }

  /** Every strict dominator of `x` dominates the current parent of `x`.  The statement mentions no
      other entry of `idom`, so updates elsewhere cannot break it. */
  ghost predicate ParentBelowDominators(g: Cfg, idom: seq<int>, x: nat)
    requires x < |idom|
  {
    forall d: nat :: StrictlyDominates(g, d, x) && 0 <= idom[x] ==> Dominates(g, d, idom[x])
  }

  /** The common ancestors of the predecessors of `x` lie at or above its current parent. */
  ghost predicate ParentBelowMeet(g: Cfg, pos: seq<nat>, idom: seq<int>, x: nat)
    requires Tree(pos, idom) && 0 < x && Defined(idom, x) && x < |g.preds|
  {
    forall u: nat :: CommonAnc(g, pos, idom, x, u) && u < |pos| ==> pos[u] <= pos[Parent(pos, idom, x)]
  }

  /** The chain of an earlier predecessor `t` of `x` agrees with the chain of `x` from the parent of
      `x` upward.  It passes through that parent unless some block before position `j`, hence
      visited since `x` was, has been raised past it. */
  ghost predicate Aligned(pos: seq<nat>, idom: seq<int>, j: nat, x: nat, t: nat)
    requires Tree(pos, idom) && 0 < x && Defined(idom, x) && Defined(idom, t)
  {
    && (pos[x] < j || j <= pos[Parent(pos, idom, x)] ==> Anc(pos, idom, Parent(pos, idom, x), t))
    && (forall u: nat :: Anc(pos, idom, u, t) && u < |pos| && pos[u] <= pos[Parent(pos, idom, x)] ==> Anc(pos, idom, u, Parent(pos, idom, x)))
  }

  /** The invariant of the iteration when the current pass has handled the positions before `j`
      and the blocks placed before `k` are the ones defined so far. */
  ghost predicate PassInv(g: Cfg, order: seq<nat>, pos: seq<nat>, idom: seq<int>, j: nat, k: nat)
    requires |g.preds| == g.N()
  {
    && |idom| == g.N() == |pos| && Tree(pos, idom)
    && j <= k && (forall x :: 0 <= x < |pos| ==> (Defined(idom, x) <==> pos[x] < k))
    && (forall x :: 0 < x < |pos| ==> ParentBelowDominators(g, idom, x))
    && (forall x :: 0 < x < |pos| && Defined(idom, x) ==> ParentBelowMeet(g, pos, idom, x))
    && (forall x, t :: 0 < x < |pos| && HasEarlierPred(g, pos, t, x) && Defined(idom, x) && Defined(idom, t) ==>
          Aligned(pos, idom, j, x, t))
  }

  /** Dominators are ancestors. */
  lemma {:induction false} DominatorIsAncestor(g: Cfg, order: seq<nat>, pos: seq<nat>, idom: seq<int>, d: nat, x: nat)
    requires WellFormed(g) && Ordered(g, order, pos) && |idom| == g.N() && Tree(pos, idom)
    requires forall y :: 0 < y < |idom| ==> ParentBelowDominators(g, idom, y)
    requires Defined(idom, x) && Dominates(g, d, x)
    ensures Anc(pos, idom, d, x)
    decreases pos[x]
  {
    if d != x {
      if x == 0 {
        DominatorIsEarlier(g, order, pos, d, x);
        assert false;
      }
      assert ParentBelowDominators(g, idom, x) && StrictlyDominates(g, d, x);
      DominatorIsAncestor(g, order, pos, idom, d, Parent(pos, idom, x));
    }
  }

  /** A dominator of `x` dominates every ancestor of `x` that lies at or below it. */
  lemma {:induction false} ClimbKeepsDominator(g: Cfg, pos: seq<nat>, idom: seq<int>, d: nat, r: nat, x: nat)
    requires |idom| == g.N() && Tree(pos, idom) && Defined(idom, x) && Defined(idom, r)
    requires forall y :: 0 < y < |idom| ==> ParentBelowDominators(g, idom, y)
    requires Dominates(g, d, x) && Anc(pos, idom, r, x) && Anc(pos, idom, d, r)
    ensures Dominates(g, d, r)
    decreases pos[x]
  {
    if r != x {
      AncBasics(pos, idom, d, r);
      AncBasics(pos, idom, r, x);
      assert ParentBelowDominators(g, idom, x) && StrictlyDominates(g, d, x);
      ClimbKeepsDominator(g, pos, idom, d, r, Parent(pos, idom, x));
    }
  }

  /** `r` is the nearest common ancestor of the predecessors of `c` defined so far. */
  ghost predicate IsMeet(g: Cfg, pos: seq<nat>, idom: seq<int>, c: nat, r: nat)
    requires Tree(pos, idom) && c < |g.preds|
  {
    && Defined(idom, r) && CommonAnc(g, pos, idom, c, r)
    && forall u: nat :: CommonAnc(g, pos, idom, c, u) ==> Anc(pos, idom, u, r)
  }

  ghost predicate AtPass(g: Cfg, order: seq<nat>, pos: seq<nat>, idom: seq<int>, j: nat, k: nat, r: nat) {
    && WellFormed(g) && Ordered(g, order, pos) && 0 < j < g.N()
    && PassInv(g, order, pos, idom, j, k) && IsMeet(g, pos, idom, order[j], r)
  }

  /** A block has an earlier predecessor, and by position `j` it is defined. */
  lemma EarlierPred(g: Cfg, order: seq<nat>, pos: seq<nat>, idom: seq<int>, j: nat, k: nat) returns (t: nat)
    requires WellFormed(g) && Ordered(g, order, pos) && 0 < j < g.N() && PassInv(g, order, pos, idom, j, k)
    ensures 0 < order[j] && HasEarlierPred(g, pos, t, order[j]) && t in g.preds[order[j]] && Defined(idom, t)
  {
    var c := order[j];
    assert Preceded(g, pos, c);
    t :| HasEarlierPred(g, pos, t, c);
    EdgeIffPred(g, t, c);
  }

  lemma MeetAboveParent(g: Cfg, pos: seq<nat>, idom: seq<int>, j: nat, c: nat, r: nat, t: nat)
    requires Tree(pos, idom) && 0 < c < |g.preds| && IsMeet(g, pos, idom, c, r)
    requires t in g.preds[c] && Defined(idom, t) && Defined(idom, c)
    requires ParentBelowMeet(g, pos, idom, c) && Aligned(pos, idom, j, c, t)
    ensures Anc(pos, idom, r, Parent(pos, idom, c))
  {
    assert pos[r] <= pos[Parent(pos, idom, c)];
    assert Anc(pos, idom, r, t);
  }

  /** The meet lies above every earlier predecessor, so it is placed before `c`; where `c` already
      has a parent, the meet is one of that parent's ancestors. */
  lemma MeetIsHigher(g: Cfg, order: seq<nat>, pos: seq<nat>, idom: seq<int>, j: nat, k: nat, r: nat)
    requires AtPass(g, order, pos, idom, j, k, r)
    ensures var c := order[j]; 0 < c && pos[r] < pos[c] && (Defined(idom, c) ==> Anc(pos, idom, r, Parent(pos, idom, c)))
    ensures Tree(pos, idom[order[j] := r])
  {
    var c := order[j];
    var t := EarlierPred(g, order, pos, idom, j, k);
    AncBasics(pos, idom, r, t);
    TreeUpdate(pos, idom, c, r);
    if Defined(idom, c) {
      MeetAboveParent(g, pos, idom, j, c, r, t);
    }
  }

  /** Giving `c` its meet for a parent lengthens no chain. */
  lemma UpdateShrinks(g: Cfg, order: seq<nat>, pos: seq<nat>, idom: seq<int>, j: nat, k: nat, r: nat, u: nat, x: nat)
    requires AtPass(g, order, pos, idom, j, k, r) && Defined(idom, x)
    requires Tree(pos, idom[order[j] := r]) && Anc(pos, idom[order[j] := r], u, x)
    ensures Anc(pos, idom, u, x)
  {
    MeetIsHigher(g, order, pos, idom, j, k, r);
    if Defined(idom, order[j]) {
      RaiseShrinks(pos, idom, order[j], r, u, x);
    } else {
      NewLeafShrinks(pos, idom, order[j], r, u, x);
    }
  }

  lemma {:induction false} NewLeafShrinks(pos: seq<nat>, idom: seq<int>, c: nat, r: nat, u: nat, x: nat)
    requires Tree(pos, idom) && 0 < c < |pos| && !Defined(idom, c)
    requires Tree(pos, idom[c := r]) && Defined(idom, x) && Anc(pos, idom[c := r], u, x)
    ensures Anc(pos, idom, u, x)
    decreases pos[x]
  {
    if u != x {
      NewLeafShrinks(pos, idom, c, r, u, Parent(pos, idom, x));
    }
  }

  lemma MeetKeepsDominator(g: Cfg, order: seq<nat>, pos: seq<nat>, idom: seq<int>, c: nat, r: nat, t: nat, d: nat)
    requires WellFormed(g) && Ordered(g, order, pos) && |idom| == g.N() && Tree(pos, idom)
    requires forall x :: 0 < x < |pos| ==> ParentBelowDominators(g, idom, x)
    requires c < g.N() && IsMeet(g, pos, idom, c, r) && t in g.preds[c] && Defined(idom, t)
    requires StrictlyDominates(g, d, c)
    ensures Dominates(g, d, r)
  {
    forall p | p in g.preds[c] && Defined(idom, p) ensures Dominates(g, d, p) && Anc(pos, idom, d, p) {
      EdgeIffPred(g, p, c);
      DominatorOfPred(g, d, p, c);
      DominatorIsAncestor(g, order, pos, idom, d, p);
    }
    assert CommonAnc(g, pos, idom, c, d);
    ClimbKeepsDominator(g, pos, idom, d, r, t);
  }

  lemma UpdateKeepsDominators(g: Cfg, order: seq<nat>, pos: seq<nat>, idom: seq<int>, j: nat, k: nat, r: nat)
    requires AtPass(g, order, pos, idom, j, k, r)
    ensures ParentBelowDominators(g, idom[order[j] := r], order[j])
  {
    var t := EarlierPred(g, order, pos, idom, j, k);
    forall d: nat | StrictlyDominates(g, d, order[j]) ensures Dominates(g, d, r) {
      MeetKeepsDominator(g, order, pos, idom, order[j], r, t, d);
    }
  }

  lemma UpdateKeepsMeet(g: Cfg, order: seq<nat>, pos: seq<nat>, idom: seq<int>, j: nat, k: nat, r: nat, x: nat)
    requires AtPass(g, order, pos, idom, j, k, r) && 0 < x && Defined(idom[order[j] := r], x)
    requires Tree(pos, idom[order[j] := r])
    ensures ParentBelowMeet(g, pos, idom[order[j] := r], x)
  {
    var c, idom' := order[j], idom[order[j] := r];
    forall u: nat | CommonAnc(g, pos, idom', x, u) && u < |pos| ensures pos[u] <= pos[Parent(pos, idom', x)] {
      forall p | p in g.preds[x] && Defined(idom, p) ensures Anc(pos, idom, u, p) {
        assert Defined(idom', p);
        UpdateShrinks(g, order, pos, idom, j, k, r, u, p);
      }
      assert CommonAnc(g, pos, idom, x, u);
      if x == c {
        AncBasics(pos, idom, u, r);
      } else {
        assert ParentBelowMeet(g, pos, idom, x);
      }
    }
  }

  /** A chain through the parent of `x` is aligned with it. */
  lemma AlignedThrough(pos: seq<nat>, idom: seq<int>, j: nat, x: nat, t: nat)
    requires Tree(pos, idom) && 0 < x && Defined(idom, x) && Defined(idom, t)
    requires Anc(pos, idom, Parent(pos, idom, x), t)
    ensures Aligned(pos, idom, j, x, t)
  {
    var o := Parent(pos, idom, x);
    forall u: nat | Anc(pos, idom, u, t) && u < |pos| && pos[u] <= pos[o] ensures Anc(pos, idom, u, o) {
      AncLinear(pos, idom, u, o, t);
    }
  }

  /** Where the parent of `x` is placed before `c`, the change at `c` cannot touch its chain. */
  lemma AlignedBeyond(g: Cfg, order: seq<nat>, pos: seq<nat>, idom: seq<int>, j: nat, k: nat, r: nat, x: nat, t: nat)
    requires AtPass(g, order, pos, idom, j, k, r) && 0 < x && x != order[j] && Defined(idom, x) && Defined(idom, t)
    requires Tree(pos, idom[order[j] := r]) && Aligned(pos, idom, j, x, t)
    requires j < pos[x] && pos[Parent(pos, idom, x)] < pos[order[j]] == j && 0 < order[j] < |pos|
    ensures Aligned(pos, idom[order[j] := r], j + 1, x, t)
  {
    var c, idom', o := order[j], idom[order[j] := r], Parent(pos, idom, x);
    forall u: nat | Anc(pos, idom', u, t) && u < |pos| && pos[u] <= pos[o] ensures Anc(pos, idom', u, o) {
      UpdateShrinks(g, order, pos, idom, j, k, r, u, t);
      ChainSurvives(pos, idom, c, r, u, o);
    }
  }

  /** A chain that avoids `c` below the parent of `x` still reaches that parent. */
  lemma AlignedNear(pos: seq<nat>, idom: seq<int>, c: nat, r: nat, j: nat, x: nat, t: nat, o: nat)
    requires Tree(pos, idom) && 0 < c < |pos| && Tree(pos, idom[c := r]) && 0 < x && o < |pos|
    requires Defined(idom[c := r], x) && Defined(idom, t) && o == Parent(pos, idom[c := r], x)
    requires Anc(pos, idom, o, t) && (pos[c] <= pos[o] || pos[t] < pos[c])
    ensures Defined(idom[c := r], t) && Aligned(pos, idom[c := r], j, x, t)
  {
    ChainSurvives(pos, idom, c, r, o, t);
    AlignedThrough(pos, idom[c := r], j, x, t);
  }

  lemma UpdateKeepsAligned(g: Cfg, order: seq<nat>, pos: seq<nat>, idom: seq<int>, j: nat, k: nat, r: nat, x: nat, t: nat)
    requires AtPass(g, order, pos, idom, j, k, r) && 0 < x && x != order[j] && Defined(idom, x)
    requires Tree(pos, idom[order[j] := r]) && HasEarlierPred(g, pos, t, x)
    requires 0 < order[j] < |pos| && pos[order[j]] == j != pos[x] && Defined(idom, t)
    requires Aligned(pos, idom, j, x, t)
    ensures Aligned(pos, idom[order[j] := r], j + 1, x, t)
  {
    var o := Parent(pos, idom, x);
    if pos[x] < j || j <= pos[o] {
      AlignedNear(pos, idom, order[j], r, j + 1, x, t, o);
    } else {
      AlignedBeyond(g, order, pos, idom, j, k, r, x, t);
    }
  }

  /** Handling the block at position `j` advances the invariant, whether or not its parent changes. */
  lemma UpdateKeepsPassInv(g: Cfg, order: seq<nat>, pos: seq<nat>, idom: seq<int>, j: nat, k: nat, r: nat)
    requires AtPass(g, order, pos, idom, j, k, r)
    ensures PassInv(g, order, pos, idom[order[j] := r], j + 1, if k == j then k + 1 else k)
    ensures Defined(idom, order[j]) && idom[order[j]] != r ==> pos[r] < pos[idom[order[j]]]
  {
    var c, idom' := order[j], idom[order[j] := r];
    MeetIsHigher(g, order, pos, idom, j, k, r);
    if Defined(idom, c) {
      AncBasics(pos, idom, r, Parent(pos, idom, c));
    }
    UpdateKeepsDominators(g, order, pos, idom, j, k, r);
    forall x | 0 < x < |pos| ensures ParentBelowDominators(g, idom', x) {
      assert x != c ==> ParentBelowDominators(g, idom, x);
    }
    forall x | 0 < x < |pos| && Defined(idom', x) ensures ParentBelowMeet(g, pos, idom', x) {
      UpdateKeepsMeet(g, order, pos, idom, j, k, r, x);
    }
    forall x, t | 0 < x < |pos| && HasEarlierPred(g, pos, t, x) && Defined(idom', x) && Defined(idom', t)
      ensures Aligned(pos, idom', j + 1, x, t)
    {
      EdgeIffPred(g, t, x);
      assert order[pos[x]] == x;
      if x == c {
        AlignedNear(pos, idom, c, r, j + 1, x, t, r);
      } else {
        assert Aligned(pos, idom, j, x, t);
        UpdateKeepsAligned(g, order, pos, idom, j, k, r, x, t);
      }
    }
    DefinedAfter(pos, order, idom, j, k, r);
  }

  lemma DefinedAfter(pos: seq<nat>, order: seq<nat>, idom: seq<int>, j: nat, k: nat, r: nat)
    requires |order| == |pos| == |idom| && j < |order| && j <= k && order[j] < |pos|
    requires forall x :: 0 <= x < |pos| ==> pos[x] < |order| && order[pos[x]] == x
    requires forall x :: 0 <= x < |pos| ==> (Defined(idom, x) <==> pos[x] < k)
    requires pos[order[j]] == j
    ensures forall x :: 0 <= x < |pos| ==> (Defined(idom[order[j] := r], x) <==> pos[x] < if k == j then k + 1 else k)
  {
    forall x | 0 <= x < |pos| ensures Defined(idom[order[j] := r], x) <==> pos[x] < if k == j then k + 1 else k {
      assert Defined(idom, x) <==> pos[x] < k;
    }
  }

  // --- the iteration -------------------------------------------------------------

  /** What a pass spends: the positions of all parents, an undefined entry counting as the last. */
  function Weight(pos: seq<nat>, idom: seq<int>, i: nat): nat
    requires |idom| == |pos| && i <= |pos|
  {
    if i == 0 then 0
    else (if 0 <= idom[i - 1] < |pos| then pos[idom[i - 1]] else |pos|) + Weight(pos, idom, i - 1)
  }

  lemma {:induction false} WeightDrops(pos: seq<nat>, idom: seq<int>, c: nat, r: nat, i: nat)
    requires |idom| == |pos| && i <= |pos| && c < |pos| && r < |pos|
    requires pos[r] < if 0 <= idom[c] < |pos| then pos[idom[c]] else |pos|
    ensures Weight(pos, idom[c := r], i) <= Weight(pos, idom, i)
    ensures c < i ==> Weight(pos, idom[c := r], i) < Weight(pos, idom, i)
  {
    if i > 0 {
      WeightDrops(pos, idom, c, r, i - 1);
    }
  }

  /** The inner loop of the iteration: the meet of the defined predecessors of `b`. */
  method MeetOfPreds(g: Cfg, pos: seq<nat>, idom: seq<int>, b: nat) returns (newIdom: int)
    requires WellFormed(g) && |idom| == g.N() && Tree(pos, idom) && b < g.N() && pos[0] == 0
    requires Injective(pos)
    requires exists p :: p in g.preds[b] && Defined(idom, p)
    ensures 0 <= newIdom && IsMeet(g, pos, idom, b, newIdom)
  {
    var ps := g.preds[b];
    newIdom := UNDEF;
    for i := 0 to |ps|
      invariant newIdom == UNDEF ==> forall k :: 0 <= k < i ==> !Defined(idom, ps[k])
      invariant newIdom != UNDEF ==>
                  && 0 <= newIdom && Defined(idom, newIdom)
                  && (forall k :: 0 <= k < i && Defined(idom, ps[k]) ==> Anc(pos, idom, newIdom, ps[k]))
                  && (forall u: nat :: CommonAnc(g, pos, idom, b, u) ==> Anc(pos, idom, u, newIdom))
    {
      var p := ps[i];
      assert p in g.preds[b];
      if idom[p] != UNDEF {
        if newIdom == UNDEF {
          newIdom := p;
        } else {
          var m := Intersect(pos, idom, p, newIdom);
          forall k | 0 <= k < i && Defined(idom, ps[k]) ensures Anc(pos, idom, m, ps[k]) {
            AncTransitive(pos, idom, m, newIdom, ps[k]);
          }
          newIdom := m;
        }
      }
    }
    assert newIdom != UNDEF;
    forall p | p in ps && Defined(idom, p) ensures Anc(pos, idom, newIdom, p) {
      var k :| 0 <= k < |ps| && ps[k] == p;
    }
  }

  /** `x` has the meet of its defined predecessors for a parent. */
  ghost predicate Settled(g: Cfg, pos: seq<nat>, idom: seq<int>, x: nat)
    requires Tree(pos, idom) && x < |g.preds|
  {
    Defined(idom, x) && CommonAnc(g, pos, idom, x, Parent(pos, idom, x))
  }

  /** In a settled tree every ancestor of `b` lies on every path to `b`. */
  lemma {:induction false} AncestorIsOnPath(g: Cfg, pos: seq<nat>, idom: seq<int>, a: nat, b: nat, q: seq<nat>)
    requires WellFormed(g) && |idom| == g.N() && Tree(pos, idom)
    requires forall x :: 0 <= x < |pos| ==> Defined(idom, x)
    requires forall x :: 0 < x < |pos| ==> Settled(g, pos, idom, x)
    requires b < g.N() && Anc(pos, idom, a, b) && PathTo(g, q, b)
    ensures a in q
    decreases |q|
  {
    if a != b {
      assert |q| > 1;
      var p := q[|q| - 2];
      assert g.Edge(p, b);
      EdgeIffPred(g, p, b);
      assert Settled(g, pos, idom, b);
      AncTransitive(pos, idom, a, Parent(pos, idom, b), p);
      assert PathTo(g, q[..|q| - 1], p);
      AncestorIsOnPath(g, pos, idom, a, p, q[..|q| - 1]);
    }
  }

  /** The array holds the dominator tree: every entry but the first is the block's immediate
      dominator, and walking up the array meets exactly the dominators. */
  ghost predicate DominatorTree(g: Cfg, pos: seq<nat>, idom: seq<int>) {
    && |idom| == g.N() && Tree(pos, idom)
    && (forall x :: 0 <= x < |idom| ==> Defined(idom, x))
    && (forall a: nat, b: nat :: b < g.N() ==> (Anc(pos, idom, a, b) <==> Dominates(g, a, b)))
    && (forall b :: 0 < b < g.N() ==> ImmediateDominator(g, idom[b], b))
  }

  /** A strict dominator that every strict dominator dominates. */
  ghost predicate ImmediateDominator(g: Cfg, a: int, b: nat) {
    && 0 <= a && StrictlyDominates(g, a, b)
    && forall d: nat :: StrictlyDominates(g, d, b) ==> Dominates(g, d, a)
  }

  lemma SettledIsDominatorTree(g: Cfg, order: seq<nat>, pos: seq<nat>, idom: seq<int>)
    requires WellFormed(g) && Ordered(g, order, pos) && |idom| == g.N() && Tree(pos, idom)
    requires forall x :: 0 <= x < |pos| ==> Defined(idom, x)
    requires forall x :: 0 < x < |pos| ==> Settled(g, pos, idom, x)
    requires forall x :: 0 < x < |pos| ==> ParentBelowDominators(g, idom, x)
    ensures DominatorTree(g, pos, idom)
  {
    forall a: nat, b: nat | b < g.N() ensures Anc(pos, idom, a, b) <==> Dominates(g, a, b) {
      if Anc(pos, idom, a, b) {
        forall q | PathTo(g, q, b) ensures a in q {
          AncestorIsOnPath(g, pos, idom, a, b, q);
        }
      }
      if Dominates(g, a, b) {
        DominatorIsAncestor(g, order, pos, idom, a, b);
      }
    }
    forall b | 0 < b < g.N() ensures ImmediateDominator(g, idom[b], b) {
      var o := Parent(pos, idom, b);
      assert ParentBelowDominators(g, idom, b);
      assert Anc(pos, idom, o, b);
    }
  }

  lemma InitialPassInv(g: Cfg, order: seq<nat>, pos: seq<nat>, idom: seq<int>)
    requires WellFormed(g) && Ordered(g, order, pos)
    requires idom == seq(g.N(), (i: nat) => if i == 0 then 0 else UNDEF)
    ensures PassInv(g, order, pos, idom, 1, 1)
  {
    forall b | 0 < b < |idom| ensures ParentEarlier(pos, idom, b) {}
    forall x | 0 <= x < |pos| ensures Defined(idom, x) <==> pos[x] < 1 {
      assert order[pos[x]] == x;
    }
  }

  /** A finished pass leaves the invariant as the next one needs it. */
  lemma NextPass(g: Cfg, order: seq<nat>, pos: seq<nat>, idom: seq<int>, k: nat)
    requires WellFormed(g) && Ordered(g, order, pos) && PassInv(g, order, pos, idom, g.N(), k)
    ensures PassInv(g, order, pos, idom, 1, k)
  {
    forall x, t | 0 < x < |pos| && HasEarlierPred(g, pos, t, x) && Defined(idom, x) && Defined(idom, t)
      ensures Aligned(pos, idom, 1, x, t)
    {
      assert Aligned(pos, idom, g.N(), x, t);
    }
  }

  /** One visit: the predecessors have a meet, taking it advances the invariant, and a changed
      parent costs weight. */
  lemma VisitAdvances(g: Cfg, order: seq<nat>, pos: seq<nat>, idom: seq<int>, j: nat, k: nat, r: nat)
    requires AtPass(g, order, pos, idom, j, k, r)
    ensures PassInv(g, order, pos, idom[order[j] := r], j + 1, if k == j then k + 1 else k)
    ensures idom[order[j]] != r ==> Weight(pos, idom[order[j] := r], g.N()) < Weight(pos, idom, g.N())
    ensures idom[order[j]] == r ==> idom[order[j] := r] == idom && Settled(g, pos, idom, order[j])
  {
    UpdateKeepsPassInv(g, order, pos, idom, j, k, r);
    var c := order[j];
    if idom[c] != r {
      assert ParentEarlier(pos, idom, c);
      assert c != 0;
      WeightDrops(pos, idom, c, r, g.N());
    }
  }

  lemma VisitIsPossible(g: Cfg, order: seq<nat>, pos: seq<nat>, idom: seq<int>, j: nat, k: nat)
    requires WellFormed(g) && Ordered(g, order, pos) && 0 < j < g.N() && PassInv(g, order, pos, idom, j, k)
    ensures exists p :: p in g.preds[order[j]] && Defined(idom, p)
  {
    var t := EarlierPred(g, order, pos, idom, j, k);
  }

  lemma OrderIsInjective(g: Cfg, order: seq<nat>, pos: seq<nat>)
    requires Ordered(g, order, pos)
    ensures Injective(pos) && pos[0] == 0
  {
    forall x, y | 0 <= x < |pos| && 0 <= y < |pos| && pos[x] == pos[y] ensures x == y {
      assert order[pos[x]] == x && order[pos[y]] == y;
    }
  }

  /** A pass that settles every position settles every block, and then the tree is exact. */
  lemma QuietPass(g: Cfg, order: seq<nat>, pos: seq<nat>, idom: seq<int>, k: nat)
    requires WellFormed(g) && Ordered(g, order, pos) && PassInv(g, order, pos, idom, g.N(), k)
    requires forall i :: 0 < i < g.N() ==> Settled(g, pos, idom, order[i])
    ensures DominatorTree(g, pos, idom)
  {
    forall x | 0 < x < |pos| ensures Settled(g, pos, idom, x) {
      assert order[pos[x]] == x;
    }
    SettledIsDominatorTree(g, order, pos, idom);
  }

  lemma PassBasics(g: Cfg, order: seq<nat>, pos: seq<nat>, idom: seq<int>, j: nat, k: nat)
    requires |g.preds| == g.N() && PassInv(g, order, pos, idom, j, k)
    ensures |idom| == g.N() == |pos| && Tree(pos, idom)
  {
  }

  lemma MeetIsAtPass(g: Cfg, order: seq<nat>, pos: seq<nat>, idom: seq<int>, j: nat, k: nat, r: nat)
    requires WellFormed(g) && Ordered(g, order, pos) && 0 < j < g.N() && PassInv(g, order, pos, idom, j, k)
    requires IsMeet(g, pos, idom, order[j], r)
    ensures AtPass(g, order, pos, idom, j, k, r)
  {
  }

  /** One pass over the blocks in order. */
  method Pass(g: Cfg, order: seq<nat>, pos: seq<nat>, before: seq<int>, ghost k0: nat)
    returns (idom: seq<int>, changed: bool, ghost k: nat)
    requires WellFormed(g) && Ordered(g, order, pos) && PassInv(g, order, pos, before, 1, k0)
    ensures PassInv(g, order, pos, idom, 1, k)
    ensures changed ==> Weight(pos, idom, g.N()) < Weight(pos, before, g.N())
    ensures !changed ==> idom == before && DominatorTree(g, pos, idom)
  {
    hide PassInv, Settled, DominatorTree, Weight, Tree, IsMeet, AtPass, Injective;
    idom, changed, k := before, false, k0;
    PassBasics(g, order, pos, idom, 1, k);
    OrderIsInjective(g, order, pos);
    for j := 1 to g.N()
      invariant |idom| == g.N() && PassInv(g, order, pos, idom, j, k)
      invariant changed ==> Weight(pos, idom, g.N()) < Weight(pos, before, g.N())
      invariant !changed ==> idom == before && forall i :: 0 < i < j ==> Settled(g, pos, idom, order[i])
    {
      var b := order[j];
      PassBasics(g, order, pos, idom, j, k);
      VisitIsPossible(g, order, pos, idom, j, k);
      var newIdom := MeetOfPreds(g, pos, idom, b);
      MeetIsAtPass(g, order, pos, idom, j, k, newIdom);
      VisitAdvances(g, order, pos, idom, j, k, newIdom);
      if newIdom != UNDEF && idom[b] != newIdom {
        idom := idom[b := newIdom];
        changed := true;
      }
      k := if k == j then k + 1 else k;
    }
    if !changed {
      QuietPass(g, order, pos, idom, k);
    }
    NextPass(g, order, pos, idom, k);
  }

  /** Passes until one changes nothing. */
  method Idoms(g: Cfg, order: seq<nat>, pos: seq<nat>) returns (idom: seq<int>)
    requires WellFormed(g) && Ordered(g, order, pos)
    ensures DominatorTree(g, pos, idom)
  {
    idom := seq(g.N(), (i: nat) => if i == 0 then 0 else UNDEF);
    InitialPassInv(g, order, pos, idom);
    ghost var k := 1;
    var changed := true;
    while changed
      invariant PassInv(g, order, pos, idom, 1, k)
      invariant !changed ==> DominatorTree(g, pos, idom)
      decreases Weight(pos, idom, g.N()), changed
    {
      idom, changed, k := Pass(g, order, pos, idom, k);
    }
  }

  /** Walking up the tree from `b` decides path dominance. */
  method DominatesBlock(g: Cfg, idom: seq<int>, pos: seq<nat>, a: nat, b0: nat) returns (r: bool)
    requires DominatorTree(g, pos, idom) && b0 < g.N() && pos[0] == 0
    requires Injective(pos)
    ensures r <==> Dominates(g, a, b0)
  {
    var b: nat := b0;
    while true
      invariant b < g.N() && (Anc(pos, idom, a, b) <==> Anc(pos, idom, a, b0))
      decreases pos[b]
    {
      if a == b { return true; }
      if pos[b] == 0 { return false; }
      ghost var p := Parent(pos, idom, b);
      b := idom[b];
    }
  }
}
