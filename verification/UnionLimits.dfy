/** Where the union-decision machine parts from subtyping: left unions under tuples, met after a right choice.  One
    left bit can then stand for one union under one right choice and for another under another. */
module UnionLimits {
  import opened Decisions
  import opened GroundTypes

  /** `e` picks one arm of every union of `x`. */
  predicate Picks(x: Type, e: Type)
    decreases x
  {
    match x
    case Union(a, b) => Picks(a, e) || Picks(b, e)
    case Tuple(xs) => e.Tuple? && |e.elems| == |xs| && forall k :: 0 <= k < |xs| ==> Picks(xs[k], e.elems[k])
    case _ => e == x
  }

  /** Every type that `x` stands for is below `y`. */
  ghost predicate Covered(h: Hierarchy, x: Type, y: Type) {
    forall e :: Picks(x, e) ==> Below(h, e, y)
  }

  lemma {:induction false} PickIsBelow(h: Hierarchy, x: Type, e: Type)
    requires Picks(x, e)
    ensures Below(h, e, x) && !e.Union?
    decreases x
  {
    match x
    case Union(a, b) =>
      PickIsBelow(h, if Picks(a, e) then a else b, e);
      BelowArm(h, e, a, b);
    case Tuple(xs) =>
      forall k | 0 <= k < |xs| ensures Below(h, e.elems[k], xs[k]) { PickIsBelow(h, xs[k], e.elems[k]); }
    case _ => BelowItself(h, x);
  }

  lemma BelowIsCovered(h: Hierarchy, x: Type, y: Type)
    requires Below(h, x, y)
    ensures Covered(h, x, y)
  {
    forall e | Picks(x, e) ensures Below(h, e, y) {
      PickIsBelow(h, x, e);
      BelowTransitive(h, e, x, y);
    }
  }

  // --- trees of small queries, with identity and without declared supertypes --------------------------------

  predicate Identical(x: Type, y: Type) { x == y }

  function Query(x: Type, y: Type): Tree { TreeOf([], Identical, x, y) }

  function Pair(a: nat, b: nat): Type { Union(Nominal(a), Nominal(b)) }

  function Nested(u: Type, v: Type): Type { Tuple([Tuple([u]), v]) }

  lemma NominalSpine(i: nat, y: Type)
    requires y.Nominal? || y == Any
    ensures SpineTree([], Identical, Nominal(i), y) == Leaf(y == Any || y == Nominal(i))
  {
    var x := Nominal(i);
    assert SpineTree([], Identical, x, y) == MemberTree([], Identical, x, y) == ArmTree([], Identical, x, y) == BaseTree([], Identical, x, y);
  }

  lemma PairQuery(a: nat, b: nat, y: Type)
    requires y.Nominal? || y == Any
    ensures Query(Pair(a, b), y) == Left(Leaf(y == Any || y == Nominal(a)), Leaf(y == Any || y == Nominal(b)))
  {
    NominalSpine(a, y);
    NominalSpine(b, y);
    assert !Egal(Identical, Pair(a, b), y);
    assert SpineTree([], Identical, Pair(a, b), y) ==
           Left(SpineTree([], Identical, Nominal(a), y), SpineTree([], Identical, Nominal(b), y));
  }

  lemma NotUnion(x: Type, y: Type)
    requires !x.Union? && !y.Union? && x != y
    ensures Query(x, y) == BaseTree([], Identical, x, y)
  {
    assert SpineTree([], Identical, x, y) == MemberTree([], Identical, x, y) == ArmTree([], Identical, x, y) == BaseTree([], Identical, x, y);
  }

  lemma SingleQuery(u: Type, v: Type)
    requires u != v
    ensures Query(Tuple([u]), Tuple([v])) == Query(u, v)
    ensures Query(Tuple([u]), Any) == Leaf(true)
  {
    var x, y := Tuple([u]), Tuple([v]);
    assert x.elems[0] == u && y.elems[0] == v;
    NotUnion(x, y);
    NotUnion(x, Any);
    assert TupleTree([], Identical, x, y, 1) == Leaf(true);
    GraftTrue(Query(u, v));
  }

  lemma NestedBase(u: Type, v: Type, p: Type, q: Type)
    requires Nested(u, v) != Tuple([p, q])
    ensures BaseTree([], Identical, Nested(u, v), Tuple([p, q])) == Graft(Query(Tuple([u]), p), Query(v, q))
  {
    var x, y := Nested(u, v), Tuple([p, q]);
    assert x.elems[0] == Tuple([u]) && x.elems[1] == v && y.elems[0] == p && y.elems[1] == q;
    assert TupleTree([], Identical, x, y, 2) == Leaf(true);
    GraftTrue(Query(v, q));
    assert TupleTree([], Identical, x, y, 1) == Query(v, q);
  }

  lemma NotEgal(u: Type, x: Type)
    requires u != x && !u.Union? && !x.Union?
    ensures !Egal(Identical, u, x) && !InUnion(Identical, u, x)
  {
    if Egal(Identical, u, x) { EgalIsEqual(Identical, u, x); }
  }

  /** Against a union of two that are not its own. */
  lemma TwoArms(x: Type, a: Type, b: Type)
    requires !x.Union? && !a.Union? && x != a && !InUnion(Identical, b, x)
    ensures Query(x, Union(a, b)) == Right(BaseTree([], Identical, x, a), ArmTree([], Identical, x, b))
  {
    var y := Union(a, b);
    NotEgal(a, x);
    assert !InUnion(Identical, y, x);
    assert SpineTree([], Identical, x, y) == MemberTree([], Identical, x, y) == ArmTree([], Identical, x, y);
    assert ArmTree([], Identical, x, a) == BaseTree([], Identical, x, a);
  }

  // --- the machine answers more than structure, and it answers wrongly ------------------------------------------

  function AnyThen(a: nat): Type { Tuple([Any, Nominal(a)]) }

  function ThenAny(c: nat): Type { Tuple([Tuple([Nominal(c)]), Any]) }

  /** A union under a tuple is skipped where the other side is `Any`, so the first left bit is read for the second
      element there and for the first element elsewhere. */
  lemma NestedArms(a: nat, b: nat, c: nat, d: nat)
    ensures var x := Nested(Pair(a, b), Pair(c, d));
            && BaseTree([], Identical, x, AnyThen(c)) == Left(Leaf(true), Leaf(d == c))
            && BaseTree([], Identical, x, ThenAny(a)) == Left(Left(Leaf(true), Leaf(true)), if b == a then Left(Leaf(true), Leaf(true)) else Leaf(false))
            && BaseTree([], Identical, x, ThenAny(b)) == Left(if a == b then Left(Leaf(true), Leaf(true)) else Leaf(false), Left(Leaf(true), Leaf(true)))
            && BaseTree([], Identical, x, Nested(Nominal(b), Nominal(d))) ==
               Left(if a == b then Left(Leaf(c == d), Leaf(true)) else Leaf(false), Left(Leaf(c == d), Leaf(true)))
  {
    var u, v := Pair(a, b), Pair(c, d);
    var x := Nested(u, v);
    assert x.elems[0] == Tuple([u]) && x.elems[1] == v;
    assert AnyThen(c).elems[0] == Any && ThenAny(a).elems[1] == Any && ThenAny(b).elems[1] == Any && Nested(Nominal(b), Nominal(d)).elems[1] == Nominal(d);
    NestedBase(u, v, Any, Nominal(c));
    NestedBase(u, v, Tuple([Nominal(a)]), Any);
    NestedBase(u, v, Tuple([Nominal(b)]), Any);
    NestedBase(u, v, Tuple([Nominal(b)]), Nominal(d));
    SingleQuery(u, Nominal(a));
    SingleQuery(u, Nominal(b));
    PairQuery(a, b, Nominal(a));
    PairQuery(a, b, Nominal(b));
    PairQuery(c, d, Nominal(c));
    PairQuery(c, d, Nominal(d));
    PairQuery(c, d, Any);
  }

  lemma TupleBelow(p: Type, q: Type, r: Type, s: Type)
    ensures Below([], Tuple([p, q]), Tuple([r, s])) <==> Below([], p, r) && Below([], q, s)
    ensures Below([], Tuple([p]), Tuple([r])) <==> Below([], p, r)
  {
    var x, y := Tuple([p, q]), Tuple([r, s]);
    assert x.elems[0] == p && x.elems[1] == q && y.elems[0] == r && y.elems[1] == s;
    assert Tuple([p]).elems[0] == p && Tuple([r]).elems[0] == r;
  }

  /** Which of the arms a nested pair of nominals is below. */
  lemma NestedBelow(i: nat, j: nat, a: nat, c: nat)
    ensures var e := Nested(Nominal(i), Nominal(j));
            && (Below([], e, AnyThen(a)) <==> j == a) && (Below([], e, ThenAny(c)) <==> i == c)
            && (Below([], e, Nested(Nominal(c), Nominal(a))) <==> i == c && j == a)
  {
    hide Below;
    var e, p := Nested(Nominal(i), Nominal(j)), Tuple([Nominal(i)]);
    TupleBelow(p, Nominal(j), Any, Nominal(a));
    TupleBelow(p, Nominal(j), Tuple([Nominal(c)]), Any);
    TupleBelow(p, Nominal(j), Tuple([Nominal(c)]), Nominal(a));
    TupleBelow(Nominal(i), Any, Nominal(c), Any);
    NominalBelow(i, c);
    NominalBelow(j, a);
    UnderAny(p);
    UnderAny(Nominal(j));
  }

  lemma NominalBelow(i: nat, j: nat)
    ensures Below([], Nominal(i), Nominal(j)) <==> i == j
  {
  }

  lemma UnderAny(x: Type)
    requires !x.Union?
    ensures Below([], x, Any)
  {
  }

  lemma EitherArm(e: Type, a: Type, b: Type)
    requires !e.Union?
    ensures Below([], e, Union(a, b)) <==> Below([], e, a) || Below([], e, b)
  {
  }

  lemma ArmsDiffer(x: Type, a: nat, c: nat, d: nat)
    requires x.Tuple? && |x.elems| == 2 && x.elems[0].Tuple? && x.elems[1].Union?
    ensures x != AnyThen(a) && x != ThenAny(c) && x != Nested(Nominal(d), Nominal(a))
  {
    assert AnyThen(a).elems[0] == Any && ThenAny(c).elems[1] == Any && Nested(Nominal(d), Nominal(a)).elems[1] == Nominal(a);
  }

  lemma PairPick(a: nat, b: nat, e: Type)
    ensures Picks(Pair(a, b), e) <==> e == Nominal(a) || e == Nominal(b)
  {
  }

  lemma NestedPick(a: nat, b: nat, c: nat, d: nat, i: nat, j: nat)
    requires (i == a || i == b) && (j == c || j == d)
    ensures Picks(Nested(Pair(a, b), Pair(c, d)), Nested(Nominal(i), Nominal(j)))
  {
    var x, e := Nested(Pair(a, b), Pair(c, d)), Nested(Nominal(i), Nominal(j));
    assert x.elems[0].elems[0] == Pair(a, b) && x.elems[1] == Pair(c, d);
    assert e.elems[0].elems[0] == Nominal(i) && e.elems[1] == Nominal(j);
    PairPick(a, b, Nominal(i));
    PairPick(c, d, Nominal(j));
    assert Picks(x.elems[0], e.elems[0]);
  }

  lemma NestedPicks(a: nat, b: nat, c: nat, d: nat, e: Type) returns (i: nat, j: nat)
    requires Picks(Nested(Pair(a, b), Pair(c, d)), e)
    ensures e == Nested(Nominal(i), Nominal(j)) && (i == a || i == b) && (j == c || j == d)
  {
    var x := Nested(Pair(a, b), Pair(c, d));
    assert x.elems[0] == Tuple([Pair(a, b)]) && x.elems[1] == Pair(c, d) && x.elems[0].elems[0] == Pair(a, b);
    assert Picks(x.elems[0], e.elems[0]) && Picks(x.elems[1], e.elems[1]);
    assert Picks(Pair(a, b), e.elems[0].elems[0]);
    PairPick(a, b, e.elems[0].elems[0]);
    PairPick(c, d, e.elems[1]);
    i, j := e.elems[0].elems[0].id, e.elems[1].id;
    assert e.elems[0].elems == [Nominal(i)] && e.elems == [Tuple([Nominal(i)]), Nominal(j)];
  }

  lemma PlainArm(x: Type, y: Type)
    requires !y.Union?
    ensures ArmTree([], Identical, x, y) == BaseTree([], Identical, x, y)
  {
  }

  lemma Answered(t: Tree)
    requires t == Right(Left(Leaf(true), Leaf(false)), Left(Leaf(false), Left(Leaf(true), Leaf(true))))
    ensures ForallExists(t)
  {
    forall l ensures Exists(t, l) {
      var r := [At(l, 0)];
      assert Leads(t.one.one, l, 1, r, 1);
      assert Leads(if At(l, 0) then t.one else t.zero, l, 0, r, 1);
      assert Leads(t, l, 0, r, 0);
    }
  }

  /** A query that is answered although some type on its left is not below its right. */
  lemma AnswersTooMuch()
    ensures var x, y := Nested(Pair(1, 0), Pair(2, 3)), Union(AnyThen(2), ThenAny(0));
            ForallExists(Query(x, y)) && !Covered([], x, y)
  {
    hide Query, BaseTree, ArmTree, ForallExists, Below, Picks, InUnion, Egal;
    var x, a, b := Nested(Pair(1, 0), Pair(2, 3)), AnyThen(2), ThenAny(0);
    ArmsDiffer(x, 2, 0, 0);
    NotEgal(b, x);
    TwoArms(x, a, b);
    PlainArm(x, b);
    NestedArms(1, 0, 2, 3);
    Answered(Query(x, Union(a, b)));
    NestedPick(1, 0, 2, 3, 1, 3);
    NestedBelow(1, 3, 2, 0);
    EitherArm(Nested(Nominal(1), Nominal(3)), a, b);
  }

  lemma Refused(t: Tree)
    requires t == Right(Left(Leaf(true), Leaf(false)),
                        Right(Left(Left(Leaf(true), Leaf(true)), Leaf(false)), Left(Leaf(false), Left(Leaf(false), Leaf(true)))))
    ensures !ForallExists(t)
  {
    var l := [true, false];
    forall r ensures !Leads(t, l, 0, r, 0) {
      assert !Leads(t.zero, l, 0, r, 1) && !Leads(t.one.zero, l, 0, r, 2);
      assert Leads(t.one.one, l, 0, r, 2) == Leads(t.one.one.one, l, 1, r, 2) == false;
    }
    assert !Exists(t, l);
  }

  /** A query that is refused although every type on its left is below its right. */
  lemma AnswersTooLittle()
    ensures var x := Nested(Pair(0, 1), Pair(2, 3));
            var y := Union(AnyThen(2), Union(ThenAny(0), Nested(Nominal(1), Nominal(3))));
            !ForallExists(Query(x, y)) && Covered([], x, y)
  {
    hide Query, BaseTree, ForallExists, Below, Picks, Egal;
    var x, a, b, c := Nested(Pair(0, 1), Pair(2, 3)), AnyThen(2), ThenAny(0), Nested(Nominal(1), Nominal(3));
    var y := Union(a, Union(b, c));
    ArmsDiffer(x, 2, 0, 1);
    ArmsDiffer(x, 3, 0, 1);
    NotEgal(b, x);
    NotEgal(c, x);
    TwoArms(x, a, Union(b, c));
    NestedArms(0, 1, 2, 3);
    PlainArm(x, b);
    PlainArm(x, c);
    Refused(Query(x, y));
    forall e | Picks(x, e) ensures Below([], e, y) {
      var i, j := NestedPicks(0, 1, 2, 3, e);
      NestedBelow(i, j, 2, 0);
      NestedBelow(i, j, 3, 1);
      EitherArm(e, a, Union(b, c));
      EitherArm(e, b, c);
    }
  }

  lemma SplitAnswered(t: Tree)
    requires t == Right(Left(Leaf(true), Leaf(false)), Left(Leaf(false), Leaf(true)))
    ensures ForallExists(t)
  {
    forall l ensures Exists(t, l) { assert Leads(t, l, 0, [At(l, 0)], 0); }
  }

  lemma SinglePick(a: nat, b: nat, e: Type)
    requires Picks(Tuple([Pair(a, b)]), e)
    ensures e == Tuple([Nominal(a)]) || e == Tuple([Nominal(b)])
  {
    assert Tuple([Pair(a, b)]).elems[0] == Pair(a, b);
    assert Picks(Pair(a, b), e.elems[0]);
    PairPick(a, b, e.elems[0]);
    assert e.elems == [e.elems[0]];
  }

  lemma PairNotBelow(a: nat, b: nat, c: nat)
    requires a != b
    ensures !Below([], Pair(a, b), Nominal(c))
  {
    NominalBelow(a, c);
    NominalBelow(b, c);
  }

  /** A tuple of a union against the union of the tuples: answered, as it should be, though not below by structure. */
  lemma AnswersMoreThanStructure()
    ensures var x, y := Tuple([Pair(0, 1)]), Union(Tuple([Nominal(0)]), Tuple([Nominal(1)]));
            ForallExists(Query(x, y)) && Covered([], x, y) && !Below([], x, y)
  {
    hide Query, BaseTree, ArmTree, ForallExists, Below, Picks, InUnion, Egal;
    var x, a, b := Tuple([Pair(0, 1)]), Tuple([Nominal(0)]), Tuple([Nominal(1)]);
    assert x.elems[0] == Pair(0, 1) && a.elems[0] == Nominal(0) && b.elems[0] == Nominal(1);
    NotEgal(b, x);
    TwoArms(x, a, b);
    PlainArm(x, b);
    SingleQuery(Pair(0, 1), Nominal(0));
    SingleQuery(Pair(0, 1), Nominal(1));
    NotUnion(x, a);
    NotUnion(x, b);
    PairQuery(0, 1, Nominal(0));
    PairQuery(0, 1, Nominal(1));
    SplitAnswered(Query(x, Union(a, b)));
    forall e | Picks(x, e) ensures Below([], e, Union(a, b)) {
      SinglePick(0, 1, e);
      EitherArm(e, a, b);
      BelowItself([], e);
    }
    EitherArm(x, a, b);
    TupleBelow(Pair(0, 1), Any, Nominal(0), Any);
    TupleBelow(Pair(0, 1), Any, Nominal(1), Any);
    PairNotBelow(0, 1, 0);
    PairNotBelow(0, 1, 1);
  }
}
