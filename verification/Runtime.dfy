/** A mutator over the collector, with its root stack.  The steps it takes, on the real heap, form a run
    of the model, so what holds in every run holds here. */
module Runtimes {
  import opened Wrappers
  import opened GcModel
  import opened GcPages
  import opened SizeClasses
  import opened GcState
  import opened GcOps
  import opened GcBigs
  import opened Collectors
  import opened GcExtents

  class Runtime {
    const heap: Collector
    /** The shadow stack. */
    var roots: seq<nat>
    ghost var held: set<nat>
    ghost var states: seq<State>
    ghost var actions: seq<Action>

    /** The steps so far are a run that ends in the present heap. */
    ghost predicate Ok()
      reads this, heap
    {
      && heap.Ok() && |states| == |actions| + 1 && Run(states, actions) && held <= heap.keep
      && states[|actions|] == State(heap.Objects(), roots, held)
    }

    constructor ()
      ensures Ok() && fresh(heap) && roots == [] && held == {} && actions == []
    {
      hide OkSnap, Abs, Step;
      heap := new Collector();
      roots, held := [], {};
      states, actions := [State(Heap(map[], map[], [], false), [], {})], [];
    }

    ghost method Record(a: Action)
      requires Run(states, actions) && heap.Ok() && Step(states[|actions|], a, State(heap.Objects(), roots, held))
      modifies this`states, this`actions
      ensures |states| == |actions| + 1 && Run(states, actions) && states == old(states) + [State(heap.Objects(), roots, held)] && actions == old(actions) + [a]
    {
      RunGrows(states, actions, a, State(heap.Objects(), roots, held));
      states, actions := states + [State(heap.Objects(), roots, held)], actions + [a];
    }

    method Alloc(typ: nat, size: nat, fields: seq<nat>) returns (o: nat)
      requires Ok() && MayRefer(held, TypeOf(typ), fields)
      modifies this, heap
      ensures Ok() && roots == old(roots)
      ensures o == 0 <==> old(NoRoom(heap.Snapshot(), 8 + AlignUp(size)))
      ensures if o == 0 then actions == old(actions) else actions == old(actions) + [Action.Alloc(o, [TypeOf(typ)] + fields)]
      ensures if o == 0 then heap.Objects() == old(heap.Objects())
              else o !in old(heap.Objects()).refs && heap.Objects() == NewObject(old(heap.Objects()), o, [TypeOf(typ)] + fields)
      ensures states == if o == 0 then old(states) else old(states) + [State(heap.Objects(), roots, held)]
      ensures o != 0 ==> 8 + size <= Extent(heap.Snapshot(), o) && Fits(8 + AlignUp(size), Extent(heap.Snapshot(), o))
      ensures forall p :: p in old(heap.Objects()).refs ==> Extent(heap.Snapshot(), p) == old(Extent(heap.Snapshot(), p))
    {
      hide Run, Step, OkSnap, Abs, TypeOf, NoRoom, AlignUp, NewObject, Extent, Fits;
      o := heap.Alloc(typ, size, fields);
      if o != 0 {
        held := held + {o};
        AllocIsStep(states[|actions|], o, TypeOf(typ), fields, State(heap.Objects(), roots, held));
        Record(Action.Alloc(o, [TypeOf(typ)] + fields));
      }
    }

    method SetField(parent: nat, k: nat, child: nat)
      requires Ok() && parent in held && k + 1 < |heap.Objects().refs[parent]| && (child != 0 ==> child in held)
      modifies this, heap
      ensures Ok() && roots == old(roots) && actions == old(actions) + [Store(parent, k + 1, child)]
      ensures states == old(states) + [State(heap.Objects(), roots, held)] && held == old(held)
      ensures heap.Objects() == SetRef(old(heap.Objects()), parent, k + 1, child)
      ensures forall p :: p in heap.Objects().refs ==> Extent(heap.Snapshot(), p) == old(Extent(heap.Snapshot(), p))
    {
      hide Run, Step, OkSnap, Abs, Extent, SetRef;
      HeldIsAllocated(heap.Snapshot(), heap.keep);
      heap.SetField(parent, k, child);
      StoreIsStep(states[|actions|], parent, k + 1, child, State(heap.Objects(), roots, held));
      Record(Store(parent, k + 1, child));
    }

    method PushRoot(v: nat)
      requires Ok() && (v != 0 ==> v in held)
      modifies this
      ensures Ok() && roots == old(roots) + [v] && actions == old(actions) + [Root(v)]
      ensures states == old(states) + [State(heap.Objects(), roots, held)] && held == old(held)
    {
      hide Run, OkSnap, Abs;
      roots := roots + [v];
      Record(Root(v));
    }

    method PopRoot() returns (v: nat)
      requires Ok() && roots != []
      modifies this
      ensures Ok() && old(roots) == roots + [v] && actions == old(actions) + [Unroot]
      ensures states == old(states) + [State(heap.Objects(), roots, held)] && held == old(held)
    {
      hide Run, OkSnap, Abs;
      v := roots[|roots| - 1];
      roots := roots[..|roots| - 1];
      Record(Unroot);
    }

    /** A collection reclaims nothing the roots reach, and leaves its references alone; the one after a full collection,
        whatever the mutator did in between, leaves nothing else. */
    method Collect(full: bool) returns (reclaimed: nat)
      requires Ok()
      modifies this, heap
      ensures Ok() && roots == old(roots) && actions == old(actions) + [Action.Collect(full)]
      ensures forall o :: Reaches(old(heap.Objects()).refs, roots, o) ==>
                && o in old(heap.Objects()).refs && o in held && o in heap.Objects().refs && heap.Objects().refs[o] == old(heap.Objects()).refs[o]
                && InUse(heap.Snapshot(), o)
      ensures old(heap.Objects()).prevFull ==> forall o :: o in heap.Objects().refs <==> Reaches(old(heap.Objects()).refs, roots, o)
      ensures YoungIsReached(old(heap.Objects()), roots, heap.Objects()) && SurvivorsAge(old(heap.Objects()), roots, full, heap.Objects())
      ensures heap.Objects().prevFull == full
      ensures states == old(states) + [State(heap.Objects(), roots, held)]
      ensures forall o :: o in heap.Objects().refs ==> Extent(heap.Snapshot(), o) == old(Extent(heap.Snapshot(), o))
    {
      hide Run, OkSnap, Abs, Reaches, Collected, InUse, Step, Extent, YoungIsReached, SurvivorsAge;
      ghost var s := states[|actions|];
      RootsAreHeld(states, actions);
      reclaimed := heap.Collect(roots, full);
      held := set o | o in heap.Objects().refs && Reaches(old(heap.Objects()).refs, roots, o);
      ghost var s' := State(heap.Objects(), roots, held);
      CollectIsStep(s, full, s');
      Record(Action.Collect(full));
      forall o | Reaches(old(heap.Objects()).refs, roots, o)
        ensures o in old(heap.Objects()).refs && o in held && o in heap.Objects().refs && heap.Objects().refs[o] == old(heap.Objects()).refs[o] && InUse(heap.Snapshot(), o)
      {
        CollectIsSafe(old(states), old(actions), full, s', o);
        AllocatedIsInUse(heap.Snapshot(), heap.keep, o);
      }
      CollectAges(old(states), old(actions), full, s');
      RemembersKind(s, full, s');
      if old(heap.Objects()).prevFull {
        forall o ensures o in heap.Objects().refs <==> Reaches(old(heap.Objects()).refs, roots, o) {
          ExactAfterFull(old(states), old(actions), full, s', o);
        }
      }
    }

    /** The roots hold the type and what the caller will put into the new object. */
    ghost predicate Rooted(typ: nat, fields: seq<nat>)
      reads this
    {
      forall c :: c in [TypeOf(typ)] + fields && c != 0 ==> c in roots
    }

    /** One attempt. */
    method Attempt(typ: nat, size: nat, fields: seq<nat>) returns (o: nat)
      requires Ok() && Rooted(typ, fields)
      modifies this, heap
      ensures Ok() && roots == old(roots) && old(states) <= states
      ensures o == 0 <==> old(NoRoom(heap.Snapshot(), 8 + AlignUp(size)))
      ensures o == 0 ==> heap.Objects() == old(heap.Objects()) && actions == old(actions)
      ensures o != 0 ==> o !in old(heap.Objects()).refs && actions == old(actions) + [Action.Alloc(o, [TypeOf(typ)] + fields)]
      ensures o != 0 ==> 8 + size <= Extent(heap.Snapshot(), o)
      ensures Spared(old(heap.Snapshot()), roots, heap.Snapshot())
    {
      hide Run, OkSnap, Abs, TypeOf, NoRoom, AlignUp, Spared, Extent;
      RootsAreHeld(states, actions);
      assert TypeOf(typ) in [TypeOf(typ)] + fields;
      o := Alloc(typ, size, fields);
      GrowthSpares(old(heap.Snapshot()), roots, heap.Snapshot());
    }

    /** The collection before a new attempt. */
    method CollectAgain(full: bool)
      requires Ok()
      modifies this, heap
      ensures Ok() && roots == old(roots) && actions == old(actions) + [Action.Collect(full)] && old(states) <= states
      ensures Spared(old(heap.Snapshot()), roots, heap.Snapshot())
    {
      hide Run, OkSnap, Abs, InUse, Reaches, Extent;
      var _ := Collect(full);
    }

    /** A collection and another attempt, made in the heap `tried`. */
    method CollectAndTry(full: bool, typ: nat, size: nat, fields: seq<nat>) returns (o: nat, ghost tried: Snap)
      requires Ok() && Rooted(typ, fields)
      modifies this, heap
      ensures Ok() && roots == old(roots) && old(states) <= states
      ensures Spared(old(heap.Snapshot()), roots, tried) && Spared(tried, roots, heap.Snapshot())
      ensures o == 0 ==> NoRoom(tried, 8 + AlignUp(size)) && Abs(tried) == heap.Objects() && actions == old(actions) + [Action.Collect(full)]
      ensures o != 0 ==> o !in Abs(tried).refs && 8 + size <= Extent(heap.Snapshot(), o)
      ensures o != 0 ==> actions == old(actions) + [Action.Collect(full)] + [Action.Alloc(o, [TypeOf(typ)] + fields)]
    {
      hide Run, OkSnap, Abs, TypeOf, NoRoom, AlignUp, Spared, Extent;
      CollectAgain(full);
      tried := heap.Snapshot();
      o := Attempt(typ, size, fields);
    }

    /** Allocation as callers see it: a collection first when the heap has reached its target, and under exhaustion a
        quick collection and then a full one, each followed by another attempt.  Nothing the roots reach is lost,
        moved into less room or changed on the way; the result is new and has the room asked for; and null means that
        right after a full collection there was none. */
    method AllocObject(typ: nat, size: nat, fields: seq<nat>, ready: bool, atTarget: bool, nextFull: bool) returns (o: nat, ghost tried: Snap)
      requires Ok() && Rooted(typ, fields)
      modifies this, heap
      ensures Ok() && roots == old(roots) && old(states) <= states
      ensures Spared(old(heap.Snapshot()), roots, heap.Snapshot())
      ensures o != 0 ==> !Reaches(old(heap.Objects()).refs, roots, o) && 8 + size <= Extent(heap.Snapshot(), o)
      ensures o == 0 ==> NoRoom(tried, 8 + AlignUp(size)) && Abs(tried) == heap.Objects()
      ensures Escalates(old(actions) + (if ready && atTarget then [Action.Collect(nextFull)] else []), ready,
                        if o == 0 then None else Some(Action.Alloc(o, [TypeOf(typ)] + fields)), actions)
      ensures old(!NoRoom(heap.Snapshot(), 8 + AlignUp(size))) && !(ready && atTarget) ==>
                o != 0 && actions == old(actions) + [Action.Alloc(o, [TypeOf(typ)] + fields)]
    {
      hide Run, OkSnap, Abs, TypeOf, NoRoom, AlignUp, Spared, Reaches, Extent;
      ghost var first := heap.Snapshot();
      GrowthSpares(first, roots, first);
      if ready && atTarget {
        CollectAgain(nextFull);
        SparedTwice(first, first, heap.Snapshot(), roots);
      }
      assert old(actions) + [] == old(actions);
      tried := heap.Snapshot();
      o := Attempt(typ, size, fields);
      ghost var now := heap.Snapshot();
      SparedTwice(first, tried, now, roots);
      if o == 0 && ready {
        o, tried := CollectAndTry(false, typ, size, fields);
        SparedTwice(first, now, tried, roots);
        SparedTwice(first, tried, heap.Snapshot(), roots);
        if o == 0 {
          now := heap.Snapshot();
          o, tried := CollectAndTry(true, typ, size, fields);
          SparedTwice(first, now, tried, roots);
          SparedTwice(first, tried, heap.Snapshot(), roots);
        }
      }
      if o != 0 { NewIsUnreached(first, tried, roots, o); }
    }
  }

  /** After `before`, an allocation at once; after a quick collection; after a quick and a full one; or none, and then
      both collections were tried if the runtime was ready for them. */
  predicate Escalates(before: seq<Action>, ready: bool, alloc: Option<Action>, now: seq<Action>) {
    match alloc
    case Some(a) =>
      || now == before + [a]
      || (ready && now == before + [Action.Collect(false)] + [a])
      || (ready && now == before + [Action.Collect(false)] + [Action.Collect(true)] + [a])
    case None => now == if ready then before + [Action.Collect(false)] + [Action.Collect(true)] else before
  }

  /** What the roots reach is still allocated, with the same references and the same bytes. */
  ghost predicate Spared(s: Snap, roots: seq<nat>, s': Snap) {
    forall o :: Reaches(Abs(s).refs, roots, o) ==>
      o in Abs(s).refs && o in Abs(s').refs && Abs(s').refs[o] == Abs(s).refs[o] && Extent(s', o) == Extent(s, o)
  }

  lemma NewIsUnreached(first: Snap, before: Snap, roots: seq<nat>, o: nat)
    requires Spared(first, roots, before) && o !in Abs(before).refs
    ensures !Reaches(Abs(first).refs, roots, o)
  {
    hide Reaches, Abs;
  }

  lemma {:induction false} PathSpared(s: Snap, roots: seq<nat>, s': Snap, p: seq<nat>)
    requires Spared(s, roots, s') && RefPath(Abs(s).refs, p) && p[0] in roots
    ensures RefPath(Abs(s').refs, p)
  {
    hide Abs, Extent;
    var refs, refs' := Abs(s).refs, Abs(s').refs;
    forall i | 0 <= i < |p| ensures p[i] in refs && p[i] in refs' && refs'[p[i]] == refs[p[i]] {
      assert RefPath(refs, p[..i + 1]);
      assert Reaches(refs, roots, p[i]);
    }
  }

  lemma SparedTwice(a: Snap, b: Snap, c: Snap, roots: seq<nat>)
    requires Spared(a, roots, b) && Spared(b, roots, c)
    ensures Spared(a, roots, c)
  {
    hide Abs, Extent;
    var x, y, z := Abs(a).refs, Abs(b).refs, Abs(c).refs;
    forall o | Reaches(x, roots, o) ensures o in x && o in z && z[o] == x[o] && Extent(c, o) == Extent(a, o) {
      var p :| RefPath(x, p) && p[0] in roots && p[|p| - 1] == o;
      PathSpared(a, roots, b, p);
      assert Reaches(y, roots, o);
    }
  }

  /** Adding objects at unused places spares everything. */
  lemma GrowthSpares(s: Snap, roots: seq<nat>, s': Snap)
    requires Abs(s).refs.Keys <= Abs(s').refs.Keys
    requires forall o :: o in Abs(s).refs ==> Abs(s').refs[o] == Abs(s).refs[o] && Extent(s', o) == Extent(s, o)
    ensures Spared(s, roots, s')
  {
    hide Abs, Extent;
  }

  /** In a consistent heap the bytes of distinct objects lie apart, inside the region, and meet no free cell and no free
      block; on a page they are among its cells in use, and they are clear of every other page. */
  lemma BytesAreOwn(s: Snap, keep: set<nat>, o: nat)
    requires OkSnap(s, keep) && o in Abs(s).refs
    ensures 0 < Extent(s, o) && o + Extent(s, o) <= s.top <= REGION_SIZE
    ensures forall p :: p in Abs(s).refs && p != o ==> Disjoint(o, Extent(s, o), p, Extent(s, p))
    ensures forall i: nat :: i < |s.pages| ==>
              if OnThePage(s, i, o) then s.pages[i].inUse && s.pages[i].start <= o && o + Extent(s, o) <= s.pages[i].bump <= s.pages[i].start + PAGE_SIZE
              else Disjoint(o, Extent(s, o), s.pages[i].start, PAGE_SIZE)
    ensures forall i: nat, c :: i < |s.pages| && i < |s.views| && s.pages[i].inUse && c in s.views[i].free ==> Disjoint(o, Extent(s, o), c, s.pages[i].osize)
    ensures forall i :: 0 <= i < |s.freeBigs| ==> Disjoint(o, Extent(s, o), s.freeBigs[i].0, s.freeBigs[i].1)
  {
    hide Inv, AllFlagsOk, Counted, TableOk, PoolsOk, LayoutOk, Bits, RefsOf, Extent, Disjoint;
    ExtentInside(s, o);
    ExtentMeetsNoFree(s, o);
    forall p | p in Abs(s).refs && p != o ensures Disjoint(o, Extent(s, o), p, Extent(s, p)) { ExtentsApart(s, o, p); }
  }

  /** On no free list, on no released page and in no free block. */
  ghost predicate InUse(s: Snap, o: nat) {
    && |s.views| == |s.pages|
    && (forall i :: 0 <= i < |s.pages| && s.pages[i].inUse ==> o !in s.views[i].free)
    && (forall i :: 0 <= i < |s.pages| && !s.pages[i].inUse ==> !Inside(s.pages[i], o))
    && (forall i :: 0 <= i < |s.freeBigs| ==> !(s.freeBigs[i].0 <= o < s.freeBigs[i].0 + s.freeBigs[i].1))
  }

  lemma AllocatedIsInUse(s: Snap, keep: set<nat>, o: nat)
    requires OkSnap(s, keep) && o in Abs(s).refs
    ensures InUse(s, o)
  {
    hide Inv, AllFlagsOk, Counted, TableOk, PoolsOk, LayoutOk, Bits, RefsOf;
    forall i | 0 <= i < |s.pages| && s.pages[i].inUse ensures o !in s.views[i].free {
      if o in s.views[i].free { FreeIsNoObject(s, i, o); }
    }
    forall i | 0 <= i < |s.pages| && !s.pages[i].inUse ensures !Inside(s.pages[i], o) {
      OffReleasedPage(s, o, i);
    }
    forall i | 0 <= i < |s.freeBigs| ensures !(s.freeBigs[i].0 <= o < s.freeBigs[i].0 + s.freeBigs[i].1) {
      OffFreeBlock(s, o, i);
    }
  }

  /** On every page in use the live and free counts add up to its capacity, the free count is the length of the
      free list plus the cells never used, the free list repeats no cell and holds no object, and a page
      with room is queued; the live count is the number of objects. */
  lemma PageIsExact(s: Snap, keep: set<nat>, i: nat)
    requires OkSnap(s, keep) && i < |s.pages| && s.pages[i].inUse
    ensures |s.views| == |s.pages| && 0 < s.pages[i].osize
    ensures var pg, v := s.pages[i], s.views[i];
            && pg.liveN + pg.nfree == Cap(pg.osize) && pg.nfree == |v.free| + Cap(pg.osize) - v.used
            && NoDuplicates(v.free) && LinkedList(s.hdr, pg.freelist, v.free)
            && (forall c :: c in v.free ==> c !in Abs(s).refs)
            && (0 < pg.nfree ==> Queued(s.pools, i, pg.osize))
    ensures s.live == |Abs(s).refs|
  {
    hide Inv, AllFlagsOk, Counted, LayoutOk, Bits, RefsOf, Cells, LinkedList, Cap, Objs;
    PageCounts(s.hdr, s.pages[i], s.views[i]);
    forall c | c in s.views[i].free ensures c !in Abs(s).refs {
      FreeIsNoObject(s, i, c);
    }
    LiveIsCount(s);
  }

  lemma OffReleasedPage(s: Snap, o: nat, i: nat)
    requires Sound(s) && o in Objs(s) && i < |s.pages| && !s.pages[i].inUse
    ensures !Inside(s.pages[i], o)
  {
    hide PageOk, PoolsOk, LayoutOk;
    if o in PageObjs(s.views) {
      var j :| 0 <= j < |s.views| && o in s.views[j].occ;
      OnPage(s, j, o);
      assert i < j || j < i;
    } else {
      BigOffPage(s, o, i);
    }
  }

  lemma OffFreeBlock(s: Snap, o: nat, i: nat)
    requires Sound(s) && o in Objs(s) && i < |s.freeBigs|
    ensures !(s.freeBigs[i].0 <= o < s.freeBigs[i].0 + s.freeBigs[i].1)
  {
    hide TableOk, PoolsOk;
    var b := s.freeBigs[i];
    assert b in multiset(s.freeBigs) && b in AllBlocks(s);
    assert BlockOk(b, s.pages, s.top);
    if o in PageObjs(s.views) {
      var j :| 0 <= j < |s.views| && o in s.views[j].occ;
      OnPage(s, j, o);
    } else {
      var a := BigBlock(s, o);
      assert a in AllBlocks(s);
      assert a == b ==> AllBlocks(s)[a] >= 2;
      assert a != b ==> Apart(a, b);
    }
  }

  lemma RunGrows(states: seq<State>, actions: seq<Action>, a: Action, s: State)
    requires Run(states, actions) && Step(states[|actions|], a, s)
    ensures Run(states + [s], actions + [a])
  {
    hide Step;
    var states', actions' := states + [s], actions + [a];
    forall i | 0 <= i < |actions'| ensures Step(states'[i], actions'[i], states'[i + 1]) {
      if i < |actions| { assert Step(states[i], actions[i], states[i + 1]); }
    }
  }

  lemma AllocIsStep(s: State, o: nat, typ: nat, fields: seq<nat>, s': State)
    requires o != 0 && o !in s.heap.refs && MayRefer(s.held, typ, fields)
    requires s' == State(NewObject(s.heap, o, [typ] + fields), s.roots, s.held + {o})
    ensures Step(s, Action.Alloc(o, [typ] + fields), s')
  {
  }

  lemma StoreIsStep(s: State, p: nat, k: nat, c: nat, s': State)
    requires p in s.held && p in s.heap.bits && p in s.heap.refs && k < |s.heap.refs[p]| && (c != 0 ==> c in s.held && c in s.heap.bits)
    requires s' == s.(heap := SetRef(s.heap, p, k, c))
    ensures Step(s, Store(p, k, c), s')
  {
  }

  lemma CollectIsStep(s: State, full: bool, s': State)
    requires Collected(s.heap, s.roots, full, s'.heap) && s'.roots == s.roots
    requires s'.held == set o | o in s'.heap.refs && Reaches(s.heap.refs, s.roots, o)
    ensures Step(s, Action.Collect(full), s')
  {
  }

  lemma RootsAreHeld(states: seq<State>, actions: seq<Action>)
    requires Run(states, actions)
    ensures var s := states[|actions|]; forall r :: r in s.roots && r != 0 ==> r in s.held
  {
    RunIsGood(states, actions, |actions|);
  }

  /** The safety of every run, at its latest step. */
  lemma CollectIsSafe(states: seq<State>, actions: seq<Action>, full: bool, s': State, o: nat)
    requires Run(states, actions) && Step(states[|actions|], Action.Collect(full), s')
    requires Reaches(states[|actions|].heap.refs, states[|actions|].roots, o)
    ensures o in states[|actions|].heap.refs && o in s'.held && o in s'.heap.refs && s'.heap.refs[o] == states[|actions|].heap.refs[o]
  {
    hide Reaches;
    RunGrows(states, actions, Action.Collect(full), s');
    var states', actions' := states + [s'], actions + [Action.Collect(full)];
    assert states'[|actions|] == states[|actions|];
    RunIsSafe(states', actions', |actions|, o);
  }

  /** How the survivors age at the latest step of a run. */
  lemma CollectAges(states: seq<State>, actions: seq<Action>, full: bool, s': State)
    requires Run(states, actions) && Step(states[|actions|], Action.Collect(full), s')
    ensures var s := states[|actions|]; SurvivorsAge(s.heap, s.roots, full, s'.heap) && YoungIsReached(s.heap, s.roots, s'.heap)
  {
    hide Reaches, Inv, Collected, AgesTo;
    RunIsGood(states, actions, |actions|);
    var s := states[|actions|];
    var keep :| GoodWith(s, keep);
    forall o | o in s'.heap.refs ensures o in s.heap.bits && o in s'.heap.bits && AgesTo(s.heap, s.roots, full, o, s'.heap.bits[o]) {
      SurvivorAges(s.heap, keep, s.roots, full, s'.heap, o);
    }
    YoungGarbageGoes(s.heap, s.roots, full, s'.heap);
  }

  lemma RemembersKind(s: State, full: bool, s': State)
    requires Step(s, Action.Collect(full), s')
    ensures s'.heap.prevFull == full
  {
  }

  lemma ExactAfterFull(states: seq<State>, actions: seq<Action>, full: bool, s': State, o: nat)
    requires Run(states, actions) && Step(states[|actions|], Action.Collect(full), s') && states[|actions|].heap.prevFull
    ensures o in s'.heap.refs <==> Reaches(states[|actions|].heap.refs, states[|actions|].roots, o)
  {
    hide Reaches, Inv, Collected;
    RunIsGood(states, actions, |actions|);
    var s := states[|actions|];
    var keep :| GoodWith(s, keep);
    NextIsExact(s.heap, keep, s.roots, full, s'.heap, o);
  }
}
