/** Ground types and their subtyping: an independent definition, the decision tree a query amounts to with
    every fast path, and how far the two agree. */
module GroundTypes {
  import opened Wrappers
  import opened Decisions

  datatype Type = Any | Bottom | Nominal(id: nat) | Tuple(elems: seq<Type>) | Union(a: Type, b: Type)

  /** The declared supertype of each nominal type, which was declared before it; none stands for `Any`. */
  type Hierarchy = seq<Option<nat>>

  function Super(h: Hierarchy, i: nat): (s: Option<nat>)
    ensures s.Some? ==> s.value < i
  {
    if i < |h| && h[i].Some? && h[i].value < i then h[i] else None
  }

  predicate Descends(h: Hierarchy, i: nat, j: nat) {
    i == j || (Super(h, i).Some? && Descends(h, Super(h, i).value, j))
  }

  /** Every declared supertype was declared before. */
  ghost predicate Declared(h: Hierarchy) {
    forall i :: 0 <= i < |h| && h[i].Some? ==> h[i].value < i
  }

  /** From `i` to `j` along declared supertypes. */
  ghost predicate Chain(h: Hierarchy, c: seq<nat>, i: nat, j: nat) {
    && c != [] && c[0] == i && c[|c| - 1] == j
    && forall k :: 0 <= k < |c| - 1 ==> c[k] < |h| && h[c[k]] == Some(c[k + 1])
  }

  lemma {:induction false} ChainDescends(h: Hierarchy, c: seq<nat>, i: nat, j: nat)
    requires Declared(h) && Chain(h, c, i, j)
    ensures Descends(h, i, j)
    decreases |c|
  {
    if |c| > 1 {
      assert h[c[0]] == Some(c[1]);
      assert Chain(h, c[1..], c[1], j);
      ChainDescends(h, c[1..], c[1], j);
    }
  }

  lemma {:induction false} DescendsChain(h: Hierarchy, i: nat, j: nat) returns (c: seq<nat>)
    requires Descends(h, i, j)
    ensures Chain(h, c, i, j)
    decreases i
  {
    if i == j {
      c := [i];
    } else {
      var d := DescendsChain(h, Super(h, i).value, j);
      c := [i] + d;
      forall k | 0 <= k < |c| - 1 ensures c[k] < |h| && h[c[k]] == Some(c[k + 1]) {
        if k > 0 { assert d[k - 1] < |h| && h[d[k - 1]] == Some(d[k]); }
      }
    }
  }

  /** A nominal type is below exactly those a chain of declared supertypes leads to. */
  lemma NominalBelowIsChain(h: Hierarchy, i: nat, j: nat)
    requires Declared(h)
    ensures Below(h, Nominal(i), Nominal(j)) <==> exists c :: Chain(h, c, i, j)
  {
    assert Below(h, Nominal(i), Nominal(j)) <==> Descends(h, i, j);
    if Descends(h, i, j) { var c := DescendsChain(h, i, j); }
    forall c | Chain(h, c, i, j) ensures Descends(h, i, j) { ChainDescends(h, c, i, j); }
  }

  // --- subtyping, defined on the types -------------------------------------------------------------

  /** Every member of a left union, some arm of a right one. */
  predicate Below(h: Hierarchy, x: Type, y: Type)
    decreases x, 1, y
  {
    match x
    case Union(a, b) => Below(h, a, y) && Below(h, b, y)
    case _ => MemberBelow(h, x, y)
  }

  predicate MemberBelow(h: Hierarchy, x: Type, y: Type)
    decreases x, 0, y
  {
    if y.Union? then MemberBelow(h, x, y.a) || MemberBelow(h, x, y.b)
    else if y == Any || x == Bottom then true
    else if x.Nominal? && y.Nominal? then Descends(h, x.id, y.id)
    else
      && x.Tuple? && y.Tuple? && |x.elems| == |y.elems|
      && forall k :: 0 <= k < |x.elems| ==> Below(h, x.elems[k], y.elems[k])
  }

  predicate UnionFree(x: Type) {
    match x
    case Union(_, _) => false
    case Tuple(xs) => forall k :: 0 <= k < |xs| ==> UnionFree(xs[k])
    case _ => true
  }

  /** Unions only on the spine. */
  predicate OnSpine(x: Type) {
    match x
    case Union(a, b) => OnSpine(a) && OnSpine(b)
    case _ => UnionFree(x)
  }

  // --- fast paths ------------------------------------------------------------------------------------

  /** Object identity: it may miss equal types but never identifies different ones. */
  ghost predicate Identity(same: (Type, Type) -> bool) {
    forall x, y :: same(x, y) ==> x == y
  }

  /** Cheap structural equality. */
  predicate Egal(same: (Type, Type) -> bool, x: Type, y: Type)
    decreases x
  {
    same(x, y) ||
    match (x, y)
    case (Tuple(xs), Tuple(ys)) => |xs| == |ys| && forall k :: 0 <= k < |xs| ==> Egal(same, xs[k], ys[k])
    case (Union(a, b), Union(c, d)) => Egal(same, a, c) && Egal(same, b, d)
    case _ => false
  }

  /** Every member of `x` is egal to some member of `u`. */
  predicate InUnion(same: (Type, Type) -> bool, u: Type, x: Type)
    decreases x, u
  {
    if x.Union? then InUnion(same, u, x.a) && InUnion(same, u, x.b)
    else if u.Union? then InUnion(same, u.a, x) || InUnion(same, u.b, x)
    else Egal(same, u, x)
  }

  // --- the query as a decision tree ---------------------------------------------------------------------

  /** `t` and then, where it succeeds, `next`. */
  function Graft(t: Tree, next: Tree): Tree {
    match t
    case Leaf(ok) => if ok then next else t
    case Left(a, b) => Left(Graft(a, next), Graft(b, next))
    case Right(a, b) => Right(Graft(a, next), Graft(b, next))
  }

  function TreeOf(h: Hierarchy, same: (Type, Type) -> bool, x: Type, y: Type): Tree
    decreases x, 5, y
  {
    if same(x, y) then Leaf(true)
    else if x.Union? && Egal(same, x, y) then Leaf(true)
    else SpineTree(h, same, x, y)
  }

  function SpineTree(h: Hierarchy, same: (Type, Type) -> bool, x: Type, y: Type): Tree
    decreases x, 4, y
  {
    match x
    case Union(a, b) => Left(SpineTree(h, same, a, y), SpineTree(h, same, b, y))
    case _ => MemberTree(h, same, x, y)
  }

  function MemberTree(h: Hierarchy, same: (Type, Type) -> bool, x: Type, y: Type): Tree
    decreases x, 3, y
  {
    if y.Union? && InUnion(same, y, x) then Leaf(true) else ArmTree(h, same, x, y)
  }

  function ArmTree(h: Hierarchy, same: (Type, Type) -> bool, x: Type, y: Type): Tree
    decreases x, 2, y
  {
    match y
    case Union(c, d) => Right(ArmTree(h, same, x, c), ArmTree(h, same, x, d))
    case _ => BaseTree(h, same, x, y)
  }

  function BaseTree(h: Hierarchy, same: (Type, Type) -> bool, x: Type, y: Type): Tree
    decreases x, 1, y
  {
    if y == Any || x == Bottom || same(x, y) then Leaf(true)
    else match (x, y)
      case (Nominal(i), Nominal(j)) => Leaf(Descends(h, i, j))
      case (Tuple(xs), Tuple(ys)) => if |xs| != |ys| then Leaf(false) else TupleTree(h, same, x, y, 0)
      case _ => Leaf(false)
  }

  /** The elements from the `k`th on, in turn. */
  function TupleTree(h: Hierarchy, same: (Type, Type) -> bool, x: Type, y: Type, k: nat): Tree
    requires x.Tuple? && y.Tuple? && |x.elems| == |y.elems| && k <= |x.elems|
    decreases x, 0, |x.elems| - k
  {
    if k == |x.elems| then Leaf(true)
    else Graft(TreeOf(h, same, x.elems[k], y.elems[k]), TupleTree(h, same, x, y, k + 1))
  }

  // --- trees without left choices ---------------------------------------------------------------------

  predicate NoLeft(t: Tree) {
    match t
    case Leaf(_) => true
    case Left(_, _) => false
    case Right(a, b) => NoLeft(a) && NoLeft(b)
  }

  /** Left choices all come before right ones. */
  predicate LeftFirst(t: Tree) {
    if t.Left? then LeftFirst(t.zero) && LeftFirst(t.one) else NoLeft(t)
  }

  /** Some right string succeeds. */
  predicate CanWin(t: Tree) {
    match t
    case Leaf(ok) => ok
    case Left(_, _) => false
    case Right(a, b) => CanWin(a) || CanWin(b)
  }

  /** Under every left choice some right string succeeds. */
  predicate WinsAll(t: Tree) {
    if t.Left? then WinsAll(t.zero) && WinsAll(t.one) else CanWin(t)
  }

  lemma {:induction false} CanWinIsNecessary(t: Tree, l: seq<bool>, i: nat, r: seq<bool>, j: nat)
    requires NoLeft(t) && Leads(t, l, i, r, j)
    ensures CanWin(t)
  {
    if t.Right? {
      CanWinIsNecessary(if At(r, j) then t.one else t.zero, l, i, r, j + 1);
    }
  }

  lemma {:induction false} CanWinIsEnough(t: Tree, l: seq<bool>, i: nat, r: seq<bool>) returns (r': seq<bool>)
    requires NoLeft(t) && CanWin(t)
    ensures Leads(t, l, i, r', |r|) && |r| <= |r'| && r'[..|r|] == r
    decreases t
  {
    match t
    case Leaf(_) => r' := r;
    case Right(a, b) =>
      var bit := !CanWin(a);
      r' := CanWinIsEnough(if bit then b else a, l, i, r + [bit]);
      assert r'[..|r| + 1][|r|] == bit;
      assert r'[..|r|] == r'[..|r| + 1][..|r|];
  }

  lemma {:induction false} WinsAllIsEnough(t: Tree, l: seq<bool>, i: nat) returns (r: seq<bool>)
    requires LeftFirst(t) && WinsAll(t)
    ensures Leads(t, l, i, r, 0)
    decreases t
  {
    if t.Left? {
      r := WinsAllIsEnough(if At(l, i) then t.one else t.zero, l, i + 1);
    } else {
      r := CanWinIsEnough(t, l, i, []);
    }
  }

  /** Where not all left choices win, some left string fails under every right string. */
  lemma {:induction false} FailingLeft(t: Tree, l: seq<bool>) returns (l': seq<bool>)
    requires LeftFirst(t) && !WinsAll(t)
    ensures |l| <= |l'| && l'[..|l|] == l && forall r :: !Leads(t, l', |l|, r, 0)
    decreases t
  {
    if t.Left? {
      var bit := WinsAll(t.zero);
      l' := FailingLeft(if bit then t.one else t.zero, l + [bit]);
      assert l'[..|l| + 1][|l|] == bit;
      assert l'[..|l|] == l'[..|l| + 1][..|l|];
    } else {
      l' := l;
      forall r ensures !Leads(t, l', |l|, r, 0) {
        if Leads(t, l', |l|, r, 0) { CanWinIsNecessary(t, l', |l|, r, 0); }
      }
    }
  }

  lemma WinsAllIsForallExists(t: Tree)
    requires LeftFirst(t)
    ensures ForallExists(t) <==> WinsAll(t)
  {
    if WinsAll(t) {
      forall l ensures Exists(t, l) {
        var r := WinsAllIsEnough(t, l, 0);
      }
    } else {
      var l := FailingLeft(t, []);
      assert !Exists(t, l);
    }
  }

  // --- the fast paths are sound ----------------------------------------------------------------------------

  lemma {:induction false} BelowArm(h: Hierarchy, x: Type, c: Type, d: Type)
    ensures Below(h, x, c) ==> Below(h, x, Union(c, d))
    ensures Below(h, x, d) ==> Below(h, x, Union(c, d))
    decreases x
  {
    if x.Union? {
      BelowArm(h, x.a, c, d);
      BelowArm(h, x.b, c, d);
    }
  }

  lemma {:induction false} BelowItself(h: Hierarchy, x: Type)
    ensures Below(h, x, x)
    decreases x
  {
    match x
    case Union(a, b) =>
      BelowItself(h, a);
      BelowItself(h, b);
      BelowArm(h, a, a, b);
      BelowArm(h, b, a, b);
    case Tuple(xs) =>
      forall k | 0 <= k < |xs| ensures Below(h, xs[k], xs[k]) {
        BelowItself(h, xs[k]);
      }
    case _ =>
  }

  lemma {:induction false} BottomIsLeast(h: Hierarchy, y: Type)
    ensures Below(h, Bottom, y)
  {
    if y.Union? { BottomIsLeast(h, y.a); }
  }

  lemma {:induction false} DescendsTransitive(h: Hierarchy, i: nat, j: nat, k: nat)
    requires Descends(h, i, j) && Descends(h, j, k)
    ensures Descends(h, i, k)
  {
    if i != j { DescendsTransitive(h, Super(h, i).value, j, k); }
  }

  /** Subtyping is transitive, through unions on either side and inside tuples. */
  lemma {:induction false} BelowTransitive(h: Hierarchy, x: Type, y: Type, z: Type)
    requires Below(h, x, y) && Below(h, y, z)
    ensures Below(h, x, z)
    decreases x, y, z
  {
    if x.Union? {
      BelowTransitive(h, x.a, y, z);
      BelowTransitive(h, x.b, y, z);
    } else if y.Union? {
      BelowTransitive(h, x, if MemberBelow(h, x, y.a) then y.a else y.b, z);
    } else if z.Union? {
      BelowTransitive(h, x, y, if MemberBelow(h, y, z.a) then z.a else z.b);
    } else if x == Bottom {
      BottomIsLeast(h, z);
    } else if x.Nominal? && y.Nominal? && z.Nominal? {
      DescendsTransitive(h, x.id, y.id, z.id);
    } else if x.Tuple? && y.Tuple? && z.Tuple? {
      forall k | 0 <= k < |x.elems| ensures Below(h, x.elems[k], z.elems[k]) {
        BelowTransitive(h, x.elems[k], y.elems[k], z.elems[k]);
      }
    }
  }

  lemma {:induction false} EgalIsEqual(same: (Type, Type) -> bool, x: Type, y: Type)
    requires Identity(same) && Egal(same, x, y)
    ensures x == y
    decreases x
  {
    if !same(x, y) {
      match x
      case Tuple(xs) =>
        forall k | 0 <= k < |xs| ensures xs[k] == y.elems[k] { EgalIsEqual(same, xs[k], y.elems[k]); }
        assert xs == y.elems;
      case Union(a, b) =>
        EgalIsEqual(same, a, y.a);
        EgalIsEqual(same, b, y.b);
    }
  }

  lemma {:induction false} InUnionIsBelow(h: Hierarchy, same: (Type, Type) -> bool, u: Type, x: Type)
    requires Identity(same) && InUnion(same, u, x)
    ensures Below(h, x, u)
    decreases x, u
  {
    if x.Union? {
      InUnionIsBelow(h, same, u, x.a);
      InUnionIsBelow(h, same, u, x.b);
    } else if u.Union? {
      InUnionIsBelow(h, same, if InUnion(same, u.a, x) then u.a else u.b, x);
    } else {
      EgalIsEqual(same, u, x);
      BelowItself(h, x);
    }
  }

  // --- what is below is answered ------------------------------------------------------------------------------

  lemma {:induction false} GraftReads(t: Tree, next: Tree, l: seq<bool>, i: nat, r: seq<bool>, j: nat)
    ensures var g, e, f := Graft(t, next), LeftEnd(t, l, i, r, j), RightEnd(t, l, i, r, j);
            if Leads(t, l, i, r, j)
            then && Leads(g, l, i, r, j) == Leads(next, l, e, r, f) && LeftEnd(g, l, i, r, j) == LeftEnd(next, l, e, r, f)
                 && RightEnd(g, l, i, r, j) == RightEnd(next, l, e, r, f)
            else !Leads(g, l, i, r, j) && LeftEnd(g, l, i, r, j) == e && RightEnd(g, l, i, r, j) == f
    decreases t
  {
    match t
    case Leaf(_) =>
    case Left(a, b) => GraftReads(if At(l, i) then b else a, next, l, i + 1, r, j);
    case Right(a, b) => GraftReads(if At(r, j) then b else a, next, l, i, r, j + 1);
  }

  lemma {:induction false} GraftTrue(t: Tree)
    ensures Graft(t, Leaf(true)) == t
    decreases t
  {
    match t
    case Leaf(_) =>
    case Left(a, b) =>
      GraftTrue(a);
      GraftTrue(b);
    case Right(a, b) =>
      GraftTrue(a);
      GraftTrue(b);
  }

  /** `r'` extends `r` by exactly the right bits that lead `t` to success. */
  ghost predicate Guides(t: Tree, l: seq<bool>, i: nat, r: seq<bool>, r': seq<bool>) {
    |r| <= |r'| && r'[..|r|] == r && Leads(t, l, i, r', |r|) && RightEnd(t, l, i, r', |r|) == |r'|
  }

  lemma GuidesChoice(a: Tree, b: Tree, bit: bool, l: seq<bool>, i: nat, r: seq<bool>, r': seq<bool>)
    requires Guides(if bit then b else a, l, i, r + [bit], r')
    ensures Guides(Right(a, b), l, i, r, r')
  {
    assert r'[..|r| + 1][|r|] == bit;
    assert r'[..|r|] == r'[..|r| + 1][..|r|];
  }

  lemma GuidesGraft(t: Tree, next: Tree, l: seq<bool>, i: nat, r: seq<bool>, r1: seq<bool>, r': seq<bool>)
    requires Guides(t, l, i, r, r1) && Guides(next, l, LeftEnd(t, l, i, r1, |r|), r1, r')
    ensures Guides(Graft(t, next), l, i, r, r')
  {
    assert Agree(r1, r', |r1|) by {
      forall k: nat | k < |r1| ensures At(r1, k) == At(r', k) { assert r'[..|r1|][k] == r1[k]; }
    }
    OnlyReadBits(t, l, l, i, r1, r', |r|);
    GraftReads(t, next, l, i, r', |r|);
    assert r'[..|r|] == r'[..|r1|][..|r|];
  }

  lemma {:induction false} GuideQuery(h: Hierarchy, same: (Type, Type) -> bool, x: Type, y: Type, l: seq<bool>, i: nat, r: seq<bool>) returns (r': seq<bool>)
    requires Below(h, x, y)
    ensures Guides(TreeOf(h, same, x, y), l, i, r, r')
    decreases x, 5, y
  {
    if same(x, y) || (x.Union? && Egal(same, x, y)) {
      r' := r;
    } else {
      r' := GuideSpine(h, same, x, y, l, i, r);
    }
  }

  lemma {:induction false} GuideSpine(h: Hierarchy, same: (Type, Type) -> bool, x: Type, y: Type, l: seq<bool>, i: nat, r: seq<bool>) returns (r': seq<bool>)
    requires Below(h, x, y)
    ensures Guides(SpineTree(h, same, x, y), l, i, r, r')
    decreases x, 4, y
  {
    if x.Union? {
      r' := GuideSpine(h, same, if At(l, i) then x.b else x.a, y, l, i + 1, r);
    } else if y.Union? && InUnion(same, y, x) {
      r' := r;
    } else {
      r' := GuideArm(h, same, x, y, l, i, r);
    }
  }

  lemma {:induction false} GuideArm(h: Hierarchy, same: (Type, Type) -> bool, x: Type, y: Type, l: seq<bool>, i: nat, r: seq<bool>) returns (r': seq<bool>)
    requires !x.Union? && MemberBelow(h, x, y)
    ensures Guides(ArmTree(h, same, x, y), l, i, r, r')
    decreases x, 2, y
  {
    if y.Union? {
      var bit := !MemberBelow(h, x, y.a);
      r' := GuideArm(h, same, x, if bit then y.b else y.a, l, i, r + [bit]);
      GuidesChoice(ArmTree(h, same, x, y.a), ArmTree(h, same, x, y.b), bit, l, i, r, r');
    } else if y == Any || x == Bottom || same(x, y) || !x.Tuple? {
      r' := r;
    } else {
      r' := GuideTuple(h, same, x, y, 0, l, i, r);
    }
  }

  lemma {:induction false} GuideTuple(h: Hierarchy, same: (Type, Type) -> bool, x: Type, y: Type, k: nat, l: seq<bool>, i: nat, r: seq<bool>) returns (r': seq<bool>)
    requires x.Tuple? && y.Tuple? && |x.elems| == |y.elems| && k <= |x.elems|
    requires forall q :: k <= q < |x.elems| ==> Below(h, x.elems[q], y.elems[q])
    ensures Guides(TupleTree(h, same, x, y, k), l, i, r, r')
    decreases x, 0, |x.elems| - k
  {
    hide Guides, TreeOf, Below;
    if k == |x.elems| {
      r' := r;
      GuidesNothing(l, i, r);
    } else {
      var t := TreeOf(h, same, x.elems[k], y.elems[k]);
      var r1 := GuideQuery(h, same, x.elems[k], y.elems[k], l, i, r);
      r' := GuideTuple(h, same, x, y, k + 1, l, LeftEnd(t, l, i, r1, |r|), r1);
      GuidesGraft(t, TupleTree(h, same, x, y, k + 1), l, i, r, r1, r');
    }
  }

  lemma GuidesNothing(l: seq<bool>, i: nat, r: seq<bool>)
    ensures Guides(Leaf(true), l, i, r, r)
  {
  }

  /** Whatever is below by structure is found, for all types and whatever the fast paths recognise. */
  lemma BelowIsAnswered(h: Hierarchy, same: (Type, Type) -> bool, x: Type, y: Type)
    requires Below(h, x, y)
    ensures ForallExists(TreeOf(h, same, x, y))
  {
    hide TreeOf, Below;
    forall l ensures Exists(TreeOf(h, same, x, y), l) {
      var r := GuideQuery(h, same, x, y, l, 0, []);
    }
  }

  // --- what is answered is below, where left choices come first ---------------------------------------------

  lemma {:induction false} GraftCanWin(t: Tree, next: Tree)
    requires NoLeft(Graft(t, next))
    ensures NoLeft(t) && (CanWin(Graft(t, next)) ==> CanWin(t) && NoLeft(next) && CanWin(next))
    decreases t
  {
    if t.Right? {
      GraftCanWin(t.zero, next);
      GraftCanWin(t.one, next);
    }
  }

  lemma {:induction false} GraftWins(t: Tree, next: Tree)
    requires LeftFirst(Graft(t, next)) && WinsAll(Graft(t, next))
    ensures LeftFirst(t) && WinsAll(t) && LeftFirst(next) && WinsAll(next)
    decreases t
  {
    if t.Left? {
      GraftWins(t.zero, next);
      GraftWins(t.one, next);
    } else if t.Right? {
      GraftCanWin(t, next);
      NoLeftShape(next);
    }
  }

  lemma NoLeftShape(t: Tree)
    requires NoLeft(t)
    ensures !t.Left? && LeftFirst(t) && (WinsAll(t) <==> CanWin(t))
  {
  }

  lemma {:induction false} WonQuery(h: Hierarchy, same: (Type, Type) -> bool, x: Type, y: Type)
    requires Identity(same) && LeftFirst(TreeOf(h, same, x, y)) && WinsAll(TreeOf(h, same, x, y))
    ensures Below(h, x, y)
    decreases x, 5, y
  {
    if same(x, y) || (x.Union? && Egal(same, x, y)) {
      if !same(x, y) { EgalIsEqual(same, x, y); }
      BelowItself(h, x);
    } else {
      WonSpine(h, same, x, y);
    }
  }

  lemma {:induction false} WonSpine(h: Hierarchy, same: (Type, Type) -> bool, x: Type, y: Type)
    requires Identity(same) && LeftFirst(SpineTree(h, same, x, y)) && WinsAll(SpineTree(h, same, x, y))
    ensures Below(h, x, y)
    decreases x, 4, y
  {
    hide Identity, ArmTree;
    if x.Union? {
      WonSpine(h, same, x.a, y);
      WonSpine(h, same, x.b, y);
    } else if y.Union? && InUnion(same, y, x) {
      InUnionIsBelow(h, same, y, x);
    } else {
      WonArm(h, same, x, y);
    }
  }

  lemma {:induction false} WonArm(h: Hierarchy, same: (Type, Type) -> bool, x: Type, y: Type)
    requires Identity(same) && !x.Union? && LeftFirst(ArmTree(h, same, x, y)) && WinsAll(ArmTree(h, same, x, y))
    ensures Below(h, x, y)
    decreases x, 2, y
  {
    hide Identity, TupleTree;
    if y.Union? {
      var arm := if CanWin(ArmTree(h, same, x, y.a)) then y.a else y.b;
      NoLeftShape(ArmTree(h, same, x, arm));
      WonArm(h, same, x, arm);
    } else if same(x, y) {
      SameIsBelow(h, same, x, y);
    } else if y != Any && x.Tuple? && y.Tuple? && |x.elems| == |y.elems| {
      WonTuple(h, same, x, y, 0);
    }
  }

  lemma SameIsBelow(h: Hierarchy, same: (Type, Type) -> bool, x: Type, y: Type)
    requires Identity(same) && same(x, y)
    ensures Below(h, x, y)
  {
    BelowItself(h, x);
  }

  lemma {:induction false} WonTuple(h: Hierarchy, same: (Type, Type) -> bool, x: Type, y: Type, k: nat)
    requires Identity(same) && x.Tuple? && y.Tuple? && |x.elems| == |y.elems| && k <= |x.elems|
    requires LeftFirst(TupleTree(h, same, x, y, k)) && WinsAll(TupleTree(h, same, x, y, k))
    ensures forall q :: k <= q < |x.elems| ==> Below(h, x.elems[q], y.elems[q])
    decreases x, 0, |x.elems| - k
  {
    hide Identity, Below, TreeOf, LeftFirst, WinsAll;
    if k < |x.elems| {
      GraftWins(TreeOf(h, same, x.elems[k], y.elems[k]), TupleTree(h, same, x, y, k + 1));
      WonQuery(h, same, x.elems[k], y.elems[k]);
      WonTuple(h, same, x, y, k + 1);
    }
  }

  /** Where no left union is met after a right choice, the query, with all its fast paths, decides subtyping. */
  lemma TreeDecidesBelow(h: Hierarchy, same: (Type, Type) -> bool, x: Type, y: Type)
    requires Identity(same) && LeftFirst(TreeOf(h, same, x, y))
    ensures ForallExists(TreeOf(h, same, x, y)) <==> Below(h, x, y)
  {
    hide Identity, ForallExists, TreeOf, Below, LeftFirst, WinsAll;
    if Below(h, x, y) { BelowIsAnswered(h, same, x, y); }
    WinsAllIsForallExists(TreeOf(h, same, x, y));
    if WinsAll(TreeOf(h, same, x, y)) { WonQuery(h, same, x, y); }
  }

  // --- when left choices come first ---------------------------------------------------------------------------

  lemma {:induction false} GraftNoLeft(t: Tree, next: Tree)
    requires NoLeft(t) && NoLeft(next)
    ensures NoLeft(Graft(t, next))
    decreases t
  {
    if t.Right? {
      GraftNoLeft(t.zero, next);
      GraftNoLeft(t.one, next);
    }
  }

  lemma {:induction false} FreeQuery(h: Hierarchy, same: (Type, Type) -> bool, x: Type, y: Type)
    requires UnionFree(x)
    ensures NoLeft(TreeOf(h, same, x, y)) && NoLeft(SpineTree(h, same, x, y))
    decreases x, 5, y
  {
    FreeArm(h, same, x, y);
    assert SpineTree(h, same, x, y) == MemberTree(h, same, x, y);
    assert MemberTree(h, same, x, y) == if y.Union? && InUnion(same, y, x) then Leaf(true) else ArmTree(h, same, x, y);
  }

  lemma {:induction false} FreeArm(h: Hierarchy, same: (Type, Type) -> bool, x: Type, y: Type)
    requires UnionFree(x)
    ensures NoLeft(ArmTree(h, same, x, y))
    decreases x, 2, y
  {
    if y.Union? {
      FreeArm(h, same, x, y.a);
      FreeArm(h, same, x, y.b);
    } else {
      assert ArmTree(h, same, x, y) == BaseTree(h, same, x, y);
      if x.Tuple? && y.Tuple? && |x.elems| == |y.elems| { FreeTuple(h, same, x, y, 0); }
    }
  }

  lemma {:induction false} FreeTuple(h: Hierarchy, same: (Type, Type) -> bool, x: Type, y: Type, k: nat)
    requires UnionFree(x) && x.Tuple? && y.Tuple? && |x.elems| == |y.elems| && k <= |x.elems|
    ensures NoLeft(TupleTree(h, same, x, y, k))
    decreases x, 0, |x.elems| - k
  {
    hide TreeOf;
    if k < |x.elems| {
      assert UnionFree(x.elems[k]);
      FreeQuery(h, same, x.elems[k], y.elems[k]);
      FreeTuple(h, same, x, y, k + 1);
      GraftNoLeft(TreeOf(h, same, x.elems[k], y.elems[k]), TupleTree(h, same, x, y, k + 1));
    }
  }

  /** Left unions on the spine are all met first. */
  lemma {:induction false} SpineIsLeftFirst(h: Hierarchy, same: (Type, Type) -> bool, x: Type, y: Type)
    requires OnSpine(x)
    ensures LeftFirst(TreeOf(h, same, x, y)) && LeftFirst(SpineTree(h, same, x, y))
    decreases x
  {
    if x.Union? {
      SpineIsLeftFirst(h, same, x.a, y);
      SpineIsLeftFirst(h, same, x.b, y);
    } else {
      FreeQuery(h, same, x, y);
      NoLeftShape(TreeOf(h, same, x, y));
      NoLeftShape(SpineTree(h, same, x, y));
    }
  }

  predicate NoRight(t: Tree) {
    match t
    case Leaf(_) => true
    case Left(a, b) => NoRight(a) && NoRight(b)
    case Right(_, _) => false
  }

  lemma {:induction false} GraftNoRight(t: Tree, next: Tree)
    requires NoRight(t) && NoRight(next)
    ensures NoRight(Graft(t, next))
    decreases t
  {
    if t.Left? {
      GraftNoRight(t.zero, next);
      GraftNoRight(t.one, next);
    }
  }

  lemma {:induction false} NoRightIsLeftFirst(t: Tree)
    requires NoRight(t)
    ensures LeftFirst(t)
  {
    if t.Left? {
      NoRightIsLeftFirst(t.zero);
      NoRightIsLeftFirst(t.one);
    }
  }

  lemma {:induction false} PlainSpine(h: Hierarchy, same: (Type, Type) -> bool, x: Type, y: Type)
    requires UnionFree(y)
    ensures NoRight(SpineTree(h, same, x, y)) && NoRight(TreeOf(h, same, x, y))
    decreases x, 4, y
  {
    if x.Union? {
      PlainSpine(h, same, x.a, y);
      PlainSpine(h, same, x.b, y);
    } else {
      assert SpineTree(h, same, x, y) == MemberTree(h, same, x, y) == ArmTree(h, same, x, y) == BaseTree(h, same, x, y);
      if x.Tuple? && y.Tuple? && |x.elems| == |y.elems| { PlainTuple(h, same, x, y, 0); }
    }
  }

  lemma {:induction false} PlainTuple(h: Hierarchy, same: (Type, Type) -> bool, x: Type, y: Type, k: nat)
    requires UnionFree(y) && x.Tuple? && y.Tuple? && |x.elems| == |y.elems| && k <= |x.elems|
    ensures NoRight(TupleTree(h, same, x, y, k))
    decreases x, 0, |x.elems| - k
  {
    hide TreeOf;
    if k < |x.elems| {
      assert UnionFree(y.elems[k]);
      PlainSpine(h, same, x.elems[k], y.elems[k]);
      PlainTuple(h, same, x, y, k + 1);
      GraftNoRight(TreeOf(h, same, x.elems[k], y.elems[k]), TupleTree(h, same, x, y, k + 1));
    }
  }

  /** A right type without unions has no choices. */
  lemma PlainIsLeftFirst(h: Hierarchy, same: (Type, Type) -> bool, x: Type, y: Type)
    requires UnionFree(y)
    ensures LeftFirst(TreeOf(h, same, x, y))
  {
    hide TreeOf;
    PlainSpine(h, same, x, y);
    NoRightIsLeftFirst(TreeOf(h, same, x, y));
  }
}
