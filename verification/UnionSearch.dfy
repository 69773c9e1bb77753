/** The two nested driver loops over the union decisions, and the traversals they replay. */
module UnionSearch {
  import opened Wrappers
  import opened Decisions
  import opened GroundTypes
  import opened UnionStates

  /** A decision stack as a traversal sees it. */
  datatype Cursor = Cursor(bits: seq<bool>, depth: nat, more: nat)

  /** The cursors after a traversal of `t` that answered `ok`. */
  ghost predicate Took(t: Tree, l: Cursor, r: Cursor, l': Cursor, r': Cursor, ok: bool) {
    && Same(l.bits, l'.bits) && Same(r.bits, r'.bits)
    && l'.depth == LeftEnd(t, l.bits, l.depth, r.bits, r.depth) <= |l'.bits|
    && r'.depth == RightEnd(t, l.bits, l.depth, r.bits, r.depth) <= |r'.bits|
    && l'.more == LastZero(l.bits, l.depth, l'.depth, l.more)
    && r'.more == LastZero(r.bits, r.depth, r'.depth, r.more)
    && ok == Leads(t, l.bits, l.depth, r.bits, r.depth)
  }

  lemma TookLeaf(l: Cursor, r: Cursor, ok: bool)
    requires l.depth <= |l.bits| && r.depth <= |r.bits|
    ensures Took(Leaf(ok), l, r, l, r, ok)
  {
  }

  /** A cursor moved over some bits. */
  ghost predicate Moved(s: Cursor, s': Cursor, end: nat) {
    Same(s.bits, s'.bits) && s.depth <= end && s'.depth == end <= |s'.bits| && s'.more == LastZero(s.bits, s.depth, end, s.more)
  }

  lemma {:induction false} LastZeroJoins(s: seq<bool>, from: nat, mid: nat, end: nat, was: nat)
    requires from <= mid <= end
    ensures LastZero(s, mid, end, LastZero(s, from, mid, was)) == LastZero(s, from, end, was)
    decreases end
  {
    if mid < end { LastZeroJoins(s, from, mid, end - 1, was); }
  }

  lemma MovedTwice(a: Cursor, b: Cursor, c: Cursor)
    requires Moved(a, b, b.depth) && Moved(b, c, c.depth)
    ensures Moved(a, c, c.depth)
  {
    LastZeroSame(a.bits, b.bits, b.depth, c.depth, b.more);
    LastZeroJoins(a.bits, a.depth, b.depth, c.depth, a.more);
  }

  lemma TookMoves(t: Tree, l: Cursor, r: Cursor, l': Cursor, r': Cursor, ok: bool)
    requires Took(t, l, r, l', r', ok)
    ensures Moved(l, l', l'.depth) && Moved(r, r', r'.depth)
  {
  }

  lemma TookIs(t: Tree, l: Cursor, r: Cursor, l': Cursor, r': Cursor, ok: bool)
    requires Moved(l, l', LeftEnd(t, l.bits, l.depth, r.bits, r.depth)) && Moved(r, r', RightEnd(t, l.bits, l.depth, r.bits, r.depth))
    requires ok == Leads(t, l.bits, l.depth, r.bits, r.depth)
    ensures Took(t, l, r, l', r', ok)
  {
  }

  // --- one decision, a spine of decisions, a conjunction --------------------------------------------

  lemma TookLeft(a: Tree, b: Tree, l: Cursor, r: Cursor, l1: Cursor, l': Cursor, r': Cursor, ok: bool)
    requires Moved(l, l1, l.depth + 1) && Took(if At(l.bits, l.depth) then b else a, l1, r, l', r', ok)
    ensures Took(Left(a, b), l, r, l', r', ok)
  {
    var t := if At(l.bits, l.depth) then b else a;
    TookMoves(t, l1, r, l', r', ok);
    MovedTwice(l, l1, l');
    SameReads(t, l.bits, l1.bits, l1.depth, r.bits, r.bits, r.depth);
  }

  lemma TookRight(a: Tree, b: Tree, l: Cursor, r: Cursor, r1: Cursor, l': Cursor, r': Cursor, ok: bool)
    requires Moved(r, r1, r.depth + 1) && Took(if At(r.bits, r.depth) then b else a, l, r1, l', r', ok)
    ensures Took(Right(a, b), l, r, l', r', ok)
  {
    var t := if At(r.bits, r.depth) then b else a;
    TookMoves(t, l, r1, l', r', ok);
    MovedTwice(r, r1, r');
    SameReads(t, l.bits, l.bits, l.depth, r.bits, r1.bits, r1.depth);
  }

  /** The arm a string picks from a union spine, and where it stops reading. */
  function Picked(u: Type, s: seq<bool>, i: nat): Type {
    if u.Union? then Picked(if At(s, i) then u.b else u.a, s, i + 1) else u
  }

  function PickedEnd(u: Type, s: seq<bool>, i: nat): (e: nat)
    ensures i <= e
  {
    if u.Union? then PickedEnd(if At(s, i) then u.b else u.a, s, i + 1) else i
  }

  lemma {:induction false} PickedIsPart(u: Type, s: seq<bool>, i: nat)
    ensures Picked(u, s, i) == u || Picked(u, s, i) < u
    ensures !Picked(u, s, i).Union?
    decreases u
  {
    if u.Union? { PickedIsPart(if At(s, i) then u.b else u.a, s, i + 1); }
  }

  lemma {:induction false} SpineReads(h: Hierarchy, same: (Type, Type) -> bool, x: Type, y: Type, l: seq<bool>, i: nat, r: seq<bool>, j: nat)
    ensures var t, u := SpineTree(h, same, x, y), MemberTree(h, same, Picked(x, l, i), y); var e := PickedEnd(x, l, i);
            && Leads(t, l, i, r, j) == Leads(u, l, e, r, j) && LeftEnd(t, l, i, r, j) == LeftEnd(u, l, e, r, j)
            && RightEnd(t, l, i, r, j) == RightEnd(u, l, e, r, j)
    decreases x
  {
    hide MemberTree;
    if x.Union? { SpineReads(h, same, if At(l, i) then x.b else x.a, y, l, i + 1, r, j); }
  }

  lemma {:induction false} ArmReads(h: Hierarchy, same: (Type, Type) -> bool, x: Type, y: Type, l: seq<bool>, i: nat, r: seq<bool>, j: nat)
    ensures var t, u := ArmTree(h, same, x, y), BaseTree(h, same, x, Picked(y, r, j)); var e := PickedEnd(y, r, j);
            && Leads(t, l, i, r, j) == Leads(u, l, i, r, e) && LeftEnd(t, l, i, r, j) == LeftEnd(u, l, i, r, e)
            && RightEnd(t, l, i, r, j) == RightEnd(u, l, i, r, e)
    decreases y
  {
    hide BaseTree;
    if y.Union? { ArmReads(h, same, x, if At(r, j) then y.b else y.a, l, i, r, j + 1); }
  }

  lemma TookSpine(h: Hierarchy, same: (Type, Type) -> bool, x: Type, y: Type, l: Cursor, r: Cursor, l1: Cursor, l': Cursor, r': Cursor, ok: bool)
    requires Moved(l, l1, PickedEnd(x, l.bits, l.depth)) && Took(MemberTree(h, same, Picked(x, l.bits, l.depth), y), l1, r, l', r', ok)
    ensures Took(SpineTree(h, same, x, y), l, r, l', r', ok)
  {
    hide SpineTree, MemberTree, Moved;
    var t := MemberTree(h, same, Picked(x, l.bits, l.depth), y);
    SpineReads(h, same, x, y, l.bits, l.depth, r.bits, r.depth);
    TookMoves(t, l1, r, l', r', ok);
    MovedFacts(l, l1, PickedEnd(x, l.bits, l.depth));
    MovedTwice(l, l1, l');
    SameReads(t, l.bits, l1.bits, l1.depth, r.bits, r.bits, r.depth);
    TookIs(SpineTree(h, same, x, y), l, r, l', r', ok);
  }

  lemma TookArm(h: Hierarchy, same: (Type, Type) -> bool, x: Type, y: Type, l: Cursor, r: Cursor, r1: Cursor, l': Cursor, r': Cursor, ok: bool)
    requires Moved(r, r1, PickedEnd(y, r.bits, r.depth)) && Took(BaseTree(h, same, x, Picked(y, r.bits, r.depth)), l, r1, l', r', ok)
    ensures Took(ArmTree(h, same, x, y), l, r, l', r', ok)
  {
    hide ArmTree, BaseTree, Moved;
    var t := BaseTree(h, same, x, Picked(y, r.bits, r.depth));
    ArmReads(h, same, x, y, l.bits, l.depth, r.bits, r.depth);
    TookMoves(t, l, r1, l', r', ok);
    MovedFacts(r, r1, PickedEnd(y, r.bits, r.depth));
    MovedTwice(r, r1, r');
    SameReads(t, l.bits, l.bits, l.depth, r.bits, r1.bits, r1.depth);
    TookIs(ArmTree(h, same, x, y), l, r, l', r', ok);
  }

  lemma MovedFacts(s: Cursor, s': Cursor, end: nat)
    requires Moved(s, s', end)
    ensures s'.depth == end && Same(s.bits, s'.bits) && Moved(s, s', s'.depth)
  {
  }

  lemma TookGraft(t: Tree, next: Tree, l: Cursor, r: Cursor, l1: Cursor, r1: Cursor, l': Cursor, r': Cursor, ok: bool)
    requires Took(t, l, r, l1, r1, true) && Took(next, l1, r1, l', r', ok)
    ensures Took(Graft(t, next), l, r, l', r', ok)
  {
    hide Moved, Graft;
    GraftReads(t, next, l.bits, l.depth, r.bits, r.depth);
    TookMoves(t, l, r, l1, r1, true);
    TookMoves(next, l1, r1, l', r', ok);
    MovedTwice(l, l1, l');
    MovedTwice(r, r1, r');
    SameReads(next, l.bits, l1.bits, l1.depth, r.bits, r1.bits, r1.depth);
    TookIs(Graft(t, next), l, r, l', r', ok);
  }

  lemma TookFailed(t: Tree, next: Tree, l: Cursor, r: Cursor, l': Cursor, r': Cursor)
    requires Took(t, l, r, l', r', false)
    ensures Took(Graft(t, next), l, r, l', r', false)
  {
    hide Moved, Graft;
    GraftReads(t, next, l.bits, l.depth, r.bits, r.depth);
    TookMoves(t, l, r, l', r', false);
    TookIs(Graft(t, next), l, r, l', r', false);
  }

  lemma {:induction false} GraftAssociates(a: Tree, b: Tree, c: Tree)
    ensures Graft(Graft(a, b), c) == Graft(a, Graft(b, c))
    decreases a
  {
    match a
    case Leaf(_) =>
    case Left(x, y) =>
      GraftAssociates(x, b, c);
      GraftAssociates(y, b, c);
    case Right(x, y) =>
      GraftAssociates(x, b, c);
      GraftAssociates(y, b, c);
  }

  /** The first `k` elements of a tuple comparison. */
  function PrefixTree(h: Hierarchy, same: (Type, Type) -> bool, x: Type, y: Type, k: nat): Tree
    requires x.Tuple? && y.Tuple? && |x.elems| == |y.elems| && k <= |x.elems|
    decreases k
  {
    if k == 0 then Leaf(true)
    else Graft(PrefixTree(h, same, x, y, k - 1), TreeOf(h, same, x.elems[k - 1], y.elems[k - 1]))
  }

  lemma {:induction false} PrefixThenRest(h: Hierarchy, same: (Type, Type) -> bool, x: Type, y: Type, k: nat)
    requires x.Tuple? && y.Tuple? && |x.elems| == |y.elems| && k <= |x.elems|
    ensures Graft(PrefixTree(h, same, x, y, k), TupleTree(h, same, x, y, k)) == TupleTree(h, same, x, y, 0)
    decreases k
  {
    hide TreeOf;
    if k > 0 {
      PrefixThenRest(h, same, x, y, k - 1);
      GraftAssociates(PrefixTree(h, same, x, y, k - 1), TreeOf(h, same, x.elems[k - 1], y.elems[k - 1]), TupleTree(h, same, x, y, k));
    }
  }

  // --- the machine ------------------------------------------------------------------------------------

  /** What a driver replays: an abstract decision tree, or a query between ground types. */
  datatype Query = OfTree(tree: Tree) | OfTypes(x: Type, y: Type)

  function QueryTree(h: Hierarchy, same: (Type, Type) -> bool, q: Query): Tree {
    match q
    case OfTree(t) => t
    case OfTypes(x, y) => TreeOf(h, same, x, y)
  }

  ghost function CursorOf(st: UnionState): Cursor
    reads st
  {
    Cursor(st.Bits(), st.depth, st.more)
  }

  /** A decision, for the strings as they read. */
  method Decide(st: UnionState) returns (b: bool)
    requires st.depth <= st.used
    modifies st
    ensures b == At(old(st.Bits()), old(st.depth)) && Moved(old(CursorOf(st)), CursorOf(st), old(st.depth) + 1)
  {
    ghost var was := st.Bits();
    b := st.PickDecision();
    assert Same(was, was + [false]);
  }

  /** Descend a union spine, one decision a level, to a single arm. */
  method PickElement(st: UnionState, u: Type) returns (v: Type)
    requires u.Union? && st.depth <= st.used
    modifies st
    ensures v == Picked(u, old(st.Bits()), old(st.depth))
    ensures Moved(old(CursorOf(st)), CursorOf(st), PickedEnd(u, old(st.Bits()), old(st.depth)))
  {
    hide Same;
    ghost var s := CursorOf(st);
    SameAsItself(s.bits);
    v := u;
    while v.Union?
      invariant Picked(v, s.bits, st.depth) == Picked(u, s.bits, s.depth) && PickedEnd(v, s.bits, st.depth) == PickedEnd(u, s.bits, s.depth)
      invariant Moved(s, CursorOf(st), st.depth)
      decreases v
    {
      ghost var before := CursorOf(st);
      var b := Decide(st);
      SameAt(s.bits, before.bits, before.depth);
      MovedTwice(s, before, CursorOf(st));
      v := if b then v.b else v.a;
    }
  }

  lemma SameAsItself(s: seq<bool>)
    ensures Same(s, s)
  {
  }

  lemma SameAt(a: seq<bool>, b: seq<bool>, k: nat)
    requires Same(a, b)
    ensures At(a, k) == At(b, k)
  {
  }

  class Search {
    const h: Hierarchy
    const same: (Type, Type) -> bool
    const lunions: UnionState
    const runions: UnionState

    constructor (h: Hierarchy, same: (Type, Type) -> bool)
      ensures this.h == h && this.same == same && fresh(lunions) && fresh(runions) && Ready()
    {
      this.h, this.same := h, same;
      lunions := new UnionState();
      runions := new UnionState();
    }

    ghost predicate Ready()
      reads this, lunions, runions
    {
      lunions != runions && lunions.depth <= lunions.used && runions.depth <= runions.used
    }

    /** Traverse a decision tree. */
    method Walk(t: Tree) returns (ok: bool)
      requires Ready()
      modifies lunions, runions
      ensures Ready() && Took(t, old(CursorOf(lunions)), old(CursorOf(runions)), CursorOf(lunions), CursorOf(runions), ok)
      decreases t
    {
      hide Took, Moved;
      ghost var l, r := CursorOf(lunions), CursorOf(runions);
      match t {
        case Leaf(b) =>
          ok := b;
          TookLeaf(l, r, b);
        case Left(a, b) =>
          var bit := Decide(lunions);
          ghost var l1 := CursorOf(lunions);
          MovedReady(l, l1, l.depth + 1);
          ok := Walk(if bit then b else a);
          TookLeft(a, b, l, r, l1, CursorOf(lunions), CursorOf(runions), ok);
        case Right(a, b) =>
          var bit := Decide(runions);
          ghost var r1 := CursorOf(runions);
          MovedReady(r, r1, r.depth + 1);
          ok := Walk(if bit then b else a);
          TookRight(a, b, l, r, r1, CursorOf(lunions), CursorOf(runions), ok);
      }
    }

    /** Compare two ground types under the present decisions. */
    method Sub(x: Type, y: Type) returns (ok: bool)
      requires Ready()
      modifies lunions, runions
      ensures Ready() && Took(TreeOf(h, same, x, y), old(CursorOf(lunions)), old(CursorOf(runions)), CursorOf(lunions), CursorOf(runions), ok)
      decreases x, 3
    {
      hide Took, Moved, SpineTree, MemberTree, Egal;
      ghost var l, r := CursorOf(lunions), CursorOf(runions);
      TookLeaf(l, r, true);
      if same(x, y) {
        return true;
      }
      if x.Union? && Egal(same, x, y) {
        return true;
      }
      var member := x;
      PickedIsPart(x, l.bits, l.depth);
      if x.Union? {
        member := PickElement(lunions, x);
      } else {
        NotMoved(l);
      }
      ghost var l1 := CursorOf(lunions);
      assert member == Picked(x, l.bits, l.depth);
      MovedReady(l, l1, PickedEnd(x, l.bits, l.depth));
      ok := SubMember(member, y);
      TookSpine(h, same, x, y, l, r, l1, CursorOf(lunions), CursorOf(runions), ok);
    }

    /** One member of the left against the right. */
    method SubMember(x: Type, y: Type) returns (ok: bool)
      requires Ready()
      modifies lunions, runions
      ensures Ready() && Took(MemberTree(h, same, x, y), old(CursorOf(lunions)), old(CursorOf(runions)), CursorOf(lunions), CursorOf(runions), ok)
      decreases x, 2
    {
      hide Took, Moved, ArmTree, BaseTree, InUnion;
      ghost var l, r := CursorOf(lunions), CursorOf(runions);
      TookLeaf(l, r, true);
      if y.Union? && InUnion(same, y, x) {
        return true;
      }
      var arm := y;
      if y.Union? {
        arm := PickElement(runions, y);
      } else {
        NotMoved(r);
      }
      ghost var r1 := CursorOf(runions);
      assert arm == Picked(y, r.bits, r.depth);
      MovedReady(r, r1, PickedEnd(y, r.bits, r.depth));
      ok := SubBase(x, arm);
      TookArm(h, same, x, y, l, r, r1, CursorOf(lunions), CursorOf(runions), ok);
    }

    /** Two types that are not unions. */
    method SubBase(x: Type, y: Type) returns (ok: bool)
      requires Ready()
      modifies lunions, runions
      ensures Ready() && Took(BaseTree(h, same, x, y), old(CursorOf(lunions)), old(CursorOf(runions)), CursorOf(lunions), CursorOf(runions), ok)
      decreases x, 1
    {
      hide Took, TupleTree, Descends;
      ghost var l, r := CursorOf(lunions), CursorOf(runions);
      TookLeaf(l, r, true);
      TookLeaf(l, r, false);
      if y == Any || x == Bottom || same(x, y) {
        return true;
      }
      if x.Nominal? && y.Nominal? {
        ok := WalkChain(x.id, y.id);
      } else if x.Tuple? && y.Tuple? && |x.elems| == |y.elems| {
        ok := SubTuple(x, y);
      } else {
        ok := false;
      }
    }

    /** Climb the declared supertypes until the name matches or there is none left. */
    method WalkChain(i: nat, j: nat) returns (ok: bool)
      ensures ok == Descends(h, i, j)
      ensures Declared(h) ==> (ok <==> exists c :: Chain(h, c, i, j))
    {
      if Declared(h) { NominalBelowIsChain(h, i, j); }
      var k := i;
      while k != j
        invariant Descends(h, i, j) == Descends(h, k, j)
        decreases k
      {
        var s := Super(h, k);
        if s == None {
          return false;
        }
        k := s.value;
      }
      return true;
    }

    /** Elements in turn, up to the first that fails. */
    method SubTuple(x: Type, y: Type) returns (ok: bool)
      requires Ready() && x.Tuple? && y.Tuple? && |x.elems| == |y.elems|
      modifies lunions, runions
      ensures Ready() && Took(TupleTree(h, same, x, y, 0), old(CursorOf(lunions)), old(CursorOf(runions)), CursorOf(lunions), CursorOf(runions), ok)
      decreases x, 0
    {
      hide Took, TreeOf, TupleTree, Graft;
      ghost var l, r := CursorOf(lunions), CursorOf(runions);
      TookLeaf(l, r, true);
      for k := 0 to |x.elems|
        invariant Ready() && Took(PrefixTree(h, same, x, y, k), l, r, CursorOf(lunions), CursorOf(runions), true)
      {
        ghost var l1, r1 := CursorOf(lunions), CursorOf(runions);
        ghost var t := TreeOf(h, same, x.elems[k], y.elems[k]);
        var one := Sub(x.elems[k], y.elems[k]);
        TookGraft(PrefixTree(h, same, x, y, k), t, l, r, l1, r1, CursorOf(lunions), CursorOf(runions), one);
        if !one {
          PrefixThenRest(h, same, x, y, k + 1);
          TookFailed(PrefixTree(h, same, x, y, k + 1), TupleTree(h, same, x, y, k + 1), l, r, CursorOf(lunions), CursorOf(runions));
          return false;
        }
      }
      PrefixThenRest(h, same, x, y, |x.elems|);
      NoMoreElements(h, same, x, y);
      GraftTrue(PrefixTree(h, same, x, y, |x.elems|));
      return true;
    }

    method Traverse(q: Query) returns (ok: bool)
      requires Ready()
      modifies lunions, runions
      ensures Ready() && Took(QueryTree(h, same, q), old(CursorOf(lunions)), old(CursorOf(runions)), CursorOf(lunions), CursorOf(runions), ok)
    {
      match q {
        case OfTree(t) => ok := Walk(t);
        case OfTypes(x, y) => ok := Sub(x, y);
      }
    }

    /** Under the left decisions as they stand, look for right decisions that succeed. */
    method ExistsSubtype(q: Query) returns (ok: bool, ghost r: seq<bool>)
      requires lunions != runions
      modifies lunions, runions
      ensures Ready() && Same(old(lunions.Bits()), lunions.Bits())
      ensures var t, l := QueryTree(h, same, q), old(lunions.Bits());
              && ok == Exists(t, l)
              && (ok ==> Leads(t, l, 0, r, 0) && lunions.more == LastZero(l, 0, LeftEnd(t, l, 0, r, 0), 0) && lunions.more <= lunions.used)
    {
      hide Took, Same, Exists, Leads, LeftEnd, RightEnd, LastZero, Less, At, Number;
      ghost var t, l := QueryTree(h, same, q), lunions.Bits();
      ghost var n := Height(t);
      runions.used := 0;
      NothingBelow(t, l);
      SameAsItself(l);
      while true
        invariant Same(l, lunions.Bits()) && NoneBelow(t, l, runions.Bits())
        decreases Pow2(n) - Number(runions.Bits(), n)
      {
        runions.depth, runions.more := 0, 0;
        lunions.depth, lunions.more := 0, 0;
        ghost var rc, lc := CursorOf(runions), CursorOf(lunions);
        ok := Traverse(q);
        r := rc.bits;
        TraversalFacts(t, l, lc, rc, CursorOf(lunions), CursorOf(runions), ok);
        if ok {
          Witness(t, l, r);
          return;
        }
        ghost var before := runions.Bits();
        var again := runions.Next();
        if !again {
          NoneAtAll(t, l, r);
          return;
        }
        NextRight(t, l, r, before, runions.more, runions.Bits(), n);
      }
    }

    /** Every choice of left decisions in turn, each with a search of its own. */
    method ForallExistsSubtype(q: Query) returns (ok: bool)
      requires lunions != runions
      modifies lunions, runions
      ensures ok == ForallExists(QueryTree(h, same, q))
    {
      hide Same, Exists, Leads, LeftEnd, LastZero, Less, At, Number;
      ghost var t := QueryTree(h, same, q);
      ghost var n := Height(t);
      lunions.used := 0;
      AllBelowNothing(t);
      while true
        invariant AllBelow(t, lunions.Bits())
        decreases Pow2(n) - Number(lunions.Bits(), n)
      {
        ghost var l := lunions.Bits();
        var sub, r := ExistsSubtype(q);
        if !sub {
          return false;
        }
        ghost var before := lunions.Bits();
        var again := lunions.Next();
        if !again {
          AllOfThem(t, l, r);
          return true;
        }
        NextLeft(t, l, r, before, lunions.more, lunions.Bits(), n);
      }
    }
  }

  lemma MovedReady(s: Cursor, s': Cursor, end: nat)
    requires Moved(s, s', end)
    ensures s'.depth <= |s'.bits|
  {
  }

  lemma NotMoved(s: Cursor)
    requires s.depth <= |s.bits|
    ensures Moved(s, s, s.depth)
  {
  }

  lemma NoMoreElements(h: Hierarchy, same: (Type, Type) -> bool, x: Type, y: Type)
    requires x.Tuple? && y.Tuple? && |x.elems| == |y.elems|
    ensures TupleTree(h, same, x, y, |x.elems|) == Leaf(true)
  {
  }

  // --- the right loop -------------------------------------------------------------------------------------

  ghost predicate NoneBelow(t: Tree, l: seq<bool>, r: seq<bool>) {
    forall y :: Less(y, r) ==> !Leads(t, l, 0, y, 0)
  }

  lemma NothingBelow(t: Tree, l: seq<bool>)
    ensures NoneBelow(t, l, [])
  {
  }

  lemma TraversalFacts(t: Tree, l: seq<bool>, lc: Cursor, rc: Cursor, lc': Cursor, rc': Cursor, ok: bool)
    requires Same(l, lc.bits) && lc.depth == lc.more == rc.depth == rc.more == 0 && Took(t, lc, rc, lc', rc', ok)
    ensures Same(l, lc'.bits) && Same(rc.bits, rc'.bits) && ok == Leads(t, l, 0, rc.bits, 0)
    ensures lc'.more == LastZero(l, 0, LeftEnd(t, l, 0, rc.bits, 0), 0) <= |lc'.bits|
    ensures rc'.more == LastZero(rc.bits, 0, RightEnd(t, l, 0, rc.bits, 0), 0) <= |rc'.bits|
  {
    SameReads(t, l, lc.bits, 0, rc.bits, rc.bits, 0);
    LastZeroSame(l, lc.bits, 0, lc'.depth, 0);
    LastZeroIs(lc.bits, 0, lc'.depth, 0);
    LastZeroIs(rc.bits, 0, rc'.depth, 0);
  }

  lemma Witness(t: Tree, l: seq<bool>, r: seq<bool>)
    requires Leads(t, l, 0, r, 0)
    ensures Exists(t, l)
  {
  }

  lemma NoneAtAll(t: Tree, l: seq<bool>, r: seq<bool>)
    requires NoneBelow(t, l, r) && !Leads(t, l, 0, r, 0) && LastZero(r, 0, RightEnd(t, l, 0, r, 0), 0) == 0
    ensures !Exists(t, l)
  {
    forall x ensures !Leads(t, l, 0, x, 0) {
      FailedBelowNext(t, l, r, 0, x);
    }
  }

  /** The counter's next value is the next string. */
  lemma BumpedBits(s: seq<bool>, before: seq<bool>, m: nat)
    requires Same(s, before) && 0 < m <= |before|
    ensures before[..m - 1] + [true] == Bumped(s, m)
  {
    forall k | 0 <= k < m - 1 ensures before[k] == Bumped(s, m)[k] { assert At(s, k) == At(before, k); }
  }

  lemma NextRight(t: Tree, l: seq<bool>, r: seq<bool>, before: seq<bool>, m: nat, next: seq<bool>, n: nat)
    requires NoneBelow(t, l, r) && !Leads(t, l, 0, r, 0) && Same(r, before) && n == Height(t)
    requires m == LastZero(r, 0, RightEnd(t, l, 0, r, 0), 0) && 0 < m <= |before| && next == before[..m - 1] + [true]
    ensures NoneBelow(t, l, next) && Number(r, n) < Number(next, n) < Pow2(n)
  {
    hide Leads, RightEnd, Less, Same;
    BumpedBits(r, before, m);
    forall x | Less(x, next) ensures !Leads(t, l, 0, x, 0) {
      FailedBelowNext(t, l, r, m, x);
    }
    EndsWithinHeight(t, l, 0, r, 0);
    LastZeroIs(r, 0, RightEnd(t, l, 0, r, 0), 0);
    NextIsGreater(r, m, n);
    NumberBound(next, n);
  }

  // --- the left loop ------------------------------------------------------------------------------------------

  ghost predicate AllBelow(t: Tree, l: seq<bool>) {
    forall y :: Less(y, l) ==> Exists(t, y)
  }

  lemma AllBelowNothing(t: Tree)
    ensures AllBelow(t, [])
  {
  }

  lemma AllOfThem(t: Tree, l: seq<bool>, r: seq<bool>)
    requires AllBelow(t, l) && Leads(t, l, 0, r, 0) && LastZero(l, 0, LeftEnd(t, l, 0, r, 0), 0) == 0
    ensures ForallExists(t)
  {
    forall x ensures Exists(t, x) {
      MatchedBelowNext(t, l, r, 0, x);
    }
  }

  lemma NextLeft(t: Tree, l: seq<bool>, r: seq<bool>, before: seq<bool>, m: nat, next: seq<bool>, n: nat)
    requires AllBelow(t, l) && Leads(t, l, 0, r, 0) && Same(l, before) && n == Height(t)
    requires m == LastZero(l, 0, LeftEnd(t, l, 0, r, 0), 0) && 0 < m <= |before| && next == before[..m - 1] + [true]
    ensures AllBelow(t, next) && Number(l, n) < Number(next, n) < Pow2(n)
  {
    hide Leads, LeftEnd, Less, Same, Exists;
    BumpedBits(l, before, m);
    forall x | Less(x, next) ensures Exists(t, x) {
      MatchedBelowNext(t, l, r, m, x);
    }
    EndsWithinHeight(t, l, 0, r, 0);
    LastZeroIs(l, 0, LeftEnd(t, l, 0, r, 0), 0);
    NextIsGreater(l, m, n);
    NumberBound(next, n);
  }

  /** The whole query between ground types.  It never misses what is below by structure, and it holds of nothing else
      where no left union is met after a right choice; so for left unions on the spine, or a right type without
      unions, it decides. */
  method Subtype(h: Hierarchy, same: (Type, Type) -> bool, x: Type, y: Type) returns (ok: bool)
    requires Identity(same)
    ensures ok <==> ForallExists(TreeOf(h, same, x, y))
    ensures Below(h, x, y) ==> ok
    ensures LeftFirst(TreeOf(h, same, x, y)) || OnSpine(x) || UnionFree(y) ==> ok == Below(h, x, y)
    ensures Declared(h) && x.Nominal? && y.Nominal? ==> (ok <==> exists c :: Chain(h, c, x.id, y.id))
  {
    if Declared(h) && x.Nominal? && y.Nominal? { NominalBelowIsChain(h, x.id, y.id); }
    assert x.Nominal? ==> OnSpine(x);
    hide Identity, Below, ForallExists, TreeOf, LeftFirst, OnSpine, UnionFree;
    var e := new Search(h, same);
    ok := e.ForallExistsSubtype(OfTypes(x, y));
    if Below(h, x, y) { BelowIsAnswered(h, same, x, y); }
    if OnSpine(x) { SpineIsLeftFirst(h, same, x, y); }
    if UnionFree(y) { PlainIsLeftFirst(h, same, x, y); }
    if LeftFirst(TreeOf(h, same, x, y)) { TreeDecidesBelow(h, same, x, y); }
  }
}
