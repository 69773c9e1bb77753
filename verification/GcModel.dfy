/** The generational collector over an abstract heap: two state bits and a reference list per object, a
    remembered set, and the mutator's steps between collections.  What every step keeps, and what
    holds in every run. */
module GcModel {
  /** Object states, the header's low two bits.  State 1 is "queued" between collections. */
  const CLEAN: nat := 0
  const MARKED: nat := 1
  const OLD: nat := 2
  const OLD_MARKED: nat := 3

  predicate HasMark(b: nat) { b == MARKED || b == OLD_MARKED }
  predicate IsOld(b: nat) { b == OLD || b == OLD_MARKED }

  /** Objects are named by nonzero numbers; 0 is the null reference. */
  datatype Heap = Heap(refs: map<nat, seq<nat>>, bits: map<nat, nat>, remset: seq<nat>, prevFull: bool)

  predicate NoDuplicates(s: seq<nat>) {
    forall i, j :: 0 <= i < j < |s| ==> s[i] != s[j]
  }

  ghost predicate Shaped(h: Heap) {
    h.refs.Keys == h.bits.Keys && 0 !in h.refs && forall o :: o in h.bits ==> h.bits[o] < 4
  }

  /** `keep` is allocated and closed under references. */
  ghost predicate Closed(refs: map<nat, seq<nat>>, keep: set<nat>) {
    keep <= refs.Keys && forall o, c :: o in keep && c in refs[o] && c != 0 ==> c in keep
  }

  /** Between collections: an object is queued exactly when it is in the remembered set, which holds
      it once; an old-marked object refers only to objects with the mark bit; everything with the mark
      bit lies in a closed set of allocated objects; and right after a full collection, and until the
      next, nothing has the mark bit. */
  ghost predicate Inv(h: Heap, keep: set<nat>) {
    && Shaped(h) && Closed(h.refs, keep)
    && QueueExact(h) && MarksKept(h, keep) && OldMarkedGuarded(h)
    && (h.prevFull ==> NothingMarked(h))
  }

  ghost predicate QueueExact(h: Heap) {
    && NoDuplicates(h.remset)
    && (forall o :: o in h.remset <==> o in h.bits && h.bits[o] == MARKED)
  }

  ghost predicate MarksKept(h: Heap, keep: set<nat>) {
    forall o :: o in h.bits && HasMark(h.bits[o]) ==> o in keep
  }

  ghost predicate OldMarkedGuarded(h: Heap) {
    forall o, c :: o in h.bits && o in h.refs && h.bits[o] == OLD_MARKED && c in h.refs[o] && c != 0 ==>
      c in h.bits && HasMark(h.bits[c])
  }

  ghost predicate NothingMarked(h: Heap) {
    forall o :: o in h.bits ==> !HasMark(h.bits[o])
  }

  // --- reachability ------------------------------------------------------------------------

  ghost predicate RefPath(refs: map<nat, seq<nat>>, p: seq<nat>) {
    && 0 < |p| && (forall i :: 0 <= i < |p| ==> p[i] != 0 && p[i] in refs)
    && (forall i :: 0 < i < |p| ==> p[i] in refs[p[i - 1]])
  }

  /** `o` is reached from one of the `seeds` along references. */
  ghost predicate Reaches(refs: map<nat, seq<nat>>, seeds: seq<nat>, o: nat) {
    exists p :: RefPath(refs, p) && p[0] in seeds && p[|p| - 1] == o
  }

  lemma ReachesSeed(refs: map<nat, seq<nat>>, seeds: seq<nat>, o: nat)
    requires o in seeds && o != 0 && o in refs
    ensures Reaches(refs, seeds, o)
  {
    assert RefPath(refs, [o]);
  }

  lemma ReachesChild(refs: map<nat, seq<nat>>, seeds: seq<nat>, o: nat, c: nat)
    requires Reaches(refs, seeds, o) && o in refs && c in refs[o] && c != 0 && c in refs
    ensures Reaches(refs, seeds, c)
  {
    var p :| RefPath(refs, p) && p[0] in seeds && p[|p| - 1] == o;
    assert RefPath(refs, p + [c]);
  }

  /** A closed set that holds the seeds holds everything they reach. */
  lemma {:induction false} PathStaysInside(refs: map<nat, seq<nat>>, keep: set<nat>, p: seq<nat>, i: nat)
    requires Closed(refs, keep) && RefPath(refs, p) && p[0] in keep && i < |p|
    ensures p[i] in keep
  {
    if i > 0 {
      PathStaysInside(refs, keep, p, i - 1);
    }
  }

  lemma ReachedIsKept(refs: map<nat, seq<nat>>, keep: set<nat>, seeds: seq<nat>, o: nat)
    requires Closed(refs, keep) && (forall r :: r in seeds && r != 0 ==> r in keep) && Reaches(refs, seeds, o)
    ensures o in keep
  {
    var p :| RefPath(refs, p) && p[0] in seeds && p[|p| - 1] == o;
    PathStaysInside(refs, keep, p, |p| - 1);
  }

  // --- the barrier ---------------------------------------------------------------------------

  predicate BarrierFires(h: Heap, parent: nat, child: nat)
    requires parent in h.bits && (child != 0 ==> child in h.bits)
  {
    child != 0 && h.bits[parent] == OLD_MARKED && !HasMark(h.bits[child])
  }

  /** Requeue the parent when the barrier fires. */
  function WriteBarrier(h: Heap, parent: nat, child: nat): Heap
    requires parent in h.bits && (child != 0 ==> child in h.bits)
  {
    if BarrierFires(h, parent, child)
    then h.(bits := h.bits[parent := MARKED], remset := h.remset + [parent])
    else h
  }

  function SetRef(h: Heap, parent: nat, k: nat, child: nat): Heap
    requires parent in h.bits && parent in h.refs && k < |h.refs[parent]| && (child != 0 ==> child in h.bits)
  {
    var b := WriteBarrier(h, parent, child);
    var fields: seq<nat> := b.refs[parent];
    b.(refs := b.refs[parent := fields[k := child]])
  }

  lemma SetRefGuards(h: Heap, keep: set<nat>, parent: nat, k: nat, child: nat)
    requires Shaped(h) && Closed(h.refs, keep) && OldMarkedGuarded(h)
    requires parent in keep && k < |h.refs[parent]| && (child != 0 ==> child in keep)
    ensures var h' := SetRef(h, parent, k, child); Closed(h'.refs, keep) && OldMarkedGuarded(h')
  {
    var h' := SetRef(h, parent, k, child);
    forall c | c in h'.refs[parent] ensures c == child || c in h.refs[parent] {}
    forall o, c | o in h'.bits && h'.bits[o] == OLD_MARKED && c in h'.refs[o] && c != 0
      ensures c in h'.bits && HasMark(h'.bits[c])
    {
      assert h.bits[o] == OLD_MARKED;
    }
  }

  lemma SetRefQueues(h: Heap, parent: nat, k: nat, child: nat)
    requires Shaped(h) && QueueExact(h) && parent in h.bits && k < |h.refs[parent]| && (child != 0 ==> child in h.bits)
    ensures QueueExact(SetRef(h, parent, k, child))
  {
    var h' := SetRef(h, parent, k, child);
    forall o ensures o in h'.remset <==> o in h'.bits && h'.bits[o] == MARKED {
      assert o in h.remset <==> o in h.bits && h.bits[o] == MARKED;
    }
  }

  lemma SetRefKeepsInv(h: Heap, keep: set<nat>, parent: nat, k: nat, child: nat)
    requires Inv(h, keep) && parent in keep && k < |h.refs[parent]| && (child != 0 ==> child in keep)
    ensures Inv(SetRef(h, parent, k, child), keep)
  {
    hide OldMarkedGuarded, QueueExact;
    SetRefGuards(h, keep, parent, k, child);
    SetRefQueues(h, parent, k, child);
  }

  function NewObject(h: Heap, o: nat, refs: seq<nat>): Heap {
    h.(refs := h.refs[o := refs], bits := h.bits[o := CLEAN])
  }

  lemma NewObjectKeepsInv(h: Heap, keep: set<nat>, o: nat, refs: seq<nat>)
    requires Inv(h, keep) && o != 0 && o !in h.refs && forall c :: c in refs && c != 0 ==> c in keep + {o}
    ensures Inv(NewObject(h, o, refs), keep + {o})
  {
  }

  // --- one collection ------------------------------------------------------------------------------

  /** An object the mark phase traces: a remembered one, or one it marks. */
  ghost predicate Scanned(h: Heap, m: Heap, o: nat) {
    o in h.remset || (o in h.bits && o in m.bits && m.bits[o] != h.bits[o])
  }

  /** The effect of the mark phase: remembered objects are old-marked again, others at most gain the
      mark bit; the roots and everything a scanned object refers to end up marked; nothing is marked
      without being reached from the roots or the remembered set; and a scanned old object that refers
      to a young survivor is remembered. */
  ghost predicate MarkPhase(h: Heap, roots: seq<nat>, m: Heap) {
    && m.refs == h.refs && m.bits.Keys == h.bits.Keys && m.prevFull == h.prevFull
    && (forall o :: o in h.bits ==> MarkStep(h, m, o))
    && (forall r :: r in roots && r != 0 ==> r in m.bits && HasMark(m.bits[r]))
    && (forall o :: o in h.bits && Scanned(h, m, o) ==> ChildrenMarked(m, o))
    && NoDuplicates(m.remset)
    && (forall o :: o in m.remset ==> o in m.bits && Scanned(h, m, o) && m.bits[o] == OLD_MARKED)
    && (forall o :: o in h.bits && Scanned(h, m, o) && m.bits[o] == OLD_MARKED && HasYoungMarked(m, o) ==> o in m.remset)
    && (forall o :: o in h.bits && o !in h.remset && m.bits[o] != h.bits[o] ==> Reaches(h.refs, roots + h.remset, o))
  }

  ghost predicate MarkStep(h: Heap, m: Heap, o: nat)
    requires o in h.bits && o in m.bits
  {
    if o in h.remset then m.bits[o] == OLD_MARKED
    else m.bits[o] == h.bits[o] || (!HasMark(h.bits[o]) && m.bits[o] == h.bits[o] + MARKED)
  }

  ghost predicate ChildrenMarked(m: Heap, o: nat) {
    o in m.refs && forall c :: c in m.refs[o] && c != 0 ==> c in m.bits && HasMark(m.bits[c])
  }

  ghost predicate HasYoungMarked(m: Heap, o: nat) {
    o in m.refs && exists c :: c in m.refs[o] && c in m.bits && m.bits[c] == MARKED
  }

  function MarkedSet(m: Heap): set<nat> {
    set o | o in m.bits && HasMark(m.bits[o])
  }

  /** What the sweep frees: unmarked objects only; of those the young ones always, and all of them when it is full
      or when it follows a full one. */
  ghost predicate SweepFrees(m: Heap, full: bool, left: set<nat>) {
    && MarkedSet(m) <= left <= m.bits.Keys
    && (forall o :: o in left ==> m.bits[o] != CLEAN)
    && (full || m.prevFull ==> left == MarkedSet(m))
  }

  function SweptBits(b: nat, full: bool): nat {
    if b == MARKED || (full && b == OLD_MARKED) then OLD else b
  }

  /** The heap after sweeping and requeueing the remembered set. */
  function AfterSweep(m: Heap, full: bool, left: set<nat>): Heap
    requires left <= m.bits.Keys && left <= m.refs.Keys
  {
    Heap(map o | o in left :: m.refs[o],
         map o | o in left :: if !full && o in m.remset then MARKED else SweptBits(m.bits[o], full),
         if full then [] else m.remset,
         full)
  }

  ghost predicate Collected(h: Heap, roots: seq<nat>, full: bool, h': Heap) {
    exists m, left :: MarkPhase(h, roots, m) && Shaped(m) && SweepFrees(m, full, left) && h' == AfterSweep(m, full, left)
  }

  /** After the mark phase the marked objects are closed under references. */
  lemma MarkedIsClosed(h: Heap, keep: set<nat>, roots: seq<nat>, m: Heap)
    requires Inv(h, keep) && MarkPhase(h, roots, m)
    ensures Shaped(m) && Closed(m.refs, MarkedSet(m))
  {
    forall o | o in m.bits ensures m.bits[o] < 4 {
      assert MarkStep(h, m, o);
    }
    forall o, c | o in MarkedSet(m) && c in m.refs[o] && c != 0 ensures c in MarkedSet(m) {
      assert MarkStep(h, m, o);
      if Scanned(h, m, o) {
        assert ChildrenMarked(m, o);
      } else {
        assert h.bits[o] == OLD_MARKED;
        assert MarkStep(h, m, c);
      }
    }
  }

  /** Only a remembered object can be old-marked and refer to an object that is about to lose the bit. */
  lemma YoungChildIsRemembered(h: Heap, keep: set<nat>, roots: seq<nat>, m: Heap, o: nat, c: nat)
    requires Inv(h, keep) && MarkPhase(h, roots, m) && o in m.bits && m.bits[o] == OLD_MARKED
    requires c in m.refs[o] && c in m.bits && m.bits[c] == MARKED
    ensures o in m.remset
  {
    assert HasYoungMarked(m, o);
    assert MarkStep(h, m, o) && MarkStep(h, m, c);
  }

  lemma SweepKeepsOldMarked(h: Heap, keep: set<nat>, roots: seq<nat>, m: Heap, full: bool, left: set<nat>, o: nat, c: nat)
    requires Inv(h, keep) && MarkPhase(h, roots, m) && Shaped(m) && Closed(m.refs, MarkedSet(m)) && SweepFrees(m, full, left)
    requires var h' := AfterSweep(m, full, left); o in left && h'.bits[o] == OLD_MARKED && c in m.refs[o] && c != 0
    ensures c in left && HasMark(AfterSweep(m, full, left).bits[c])
  {
    hide Inv, MarkPhase, Reaches;
    assert m.bits[o] == OLD_MARKED && o !in m.remset && !full;
    assert o in MarkedSet(m) && c in MarkedSet(m);
    if m.bits[c] == MARKED {
      YoungChildIsRemembered(h, keep, roots, m, o, c);
    }
  }

  lemma SweepKeepsQueue(h: Heap, roots: seq<nat>, m: Heap, full: bool, left: set<nat>, o: nat)
    requires MarkPhase(h, roots, m) && Shaped(m) && SweepFrees(m, full, left)
    ensures var h' := AfterSweep(m, full, left); o in h'.remset <==> o in h'.bits && h'.bits[o] == MARKED
  {
    if o in m.remset {
      assert o in MarkedSet(m);
    }
  }

  lemma SweepKeepsShape(h: Heap, roots: seq<nat>, m: Heap, full: bool, left: set<nat>)
    requires MarkPhase(h, roots, m) && Shaped(m) && SweepFrees(m, full, left) && Closed(m.refs, MarkedSet(m))
    ensures var h' := AfterSweep(m, full, left);
            && Shaped(h') && Closed(h'.refs, MarkedSet(m)) && MarksKept(h', MarkedSet(m)) && QueueExact(h')
            && (h'.prevFull ==> NothingMarked(h'))
  {
    var h' := AfterSweep(m, full, left);
    forall o ensures o in h'.remset <==> o in h'.bits && h'.bits[o] == MARKED {
      SweepKeepsQueue(h, roots, m, full, left, o);
    }
  }

  lemma CollectKeepsInv(h: Heap, keep: set<nat>, roots: seq<nat>, m: Heap, full: bool, left: set<nat>)
    requires Inv(h, keep) && MarkPhase(h, roots, m) && SweepFrees(m, full, left)
    ensures Shaped(m) && left <= m.refs.Keys && Inv(AfterSweep(m, full, left), MarkedSet(m))
  {
    MarkedIsClosed(h, keep, roots, m);
    SweepKeepsShape(h, roots, m, full, left);
    var h' := AfterSweep(m, full, left);
    forall o, c | o in h'.bits && h'.bits[o] == OLD_MARKED && c in h'.refs[o] && c != 0
      ensures c in h'.bits && HasMark(h'.bits[c])
    {
      SweepKeepsOldMarked(h, keep, roots, m, full, left, o, c);
    }
  }

  // --- what a collection does for the mutator ----------------------------------------------------

  /** Every object reachable from the roots survives, with its references unchanged. */
  lemma ReachableSurvives(h: Heap, keep: set<nat>, roots: seq<nat>, full: bool, h': Heap, o: nat)
    requires Inv(h, keep) && Collected(h, roots, full, h') && Reaches(h.refs, roots, o)
    ensures o in h'.refs && h'.refs[o] == h.refs[o]
  {
    var m, left :| MarkPhase(h, roots, m) && Shaped(m) && SweepFrees(m, full, left) && h' == AfterSweep(m, full, left);
    MarkedIsClosed(h, keep, roots, m);
    ReachedIsKept(h.refs, MarkedSet(m), roots, o);
  }

  ghost predicate AllOld(h: Heap) {
    forall o :: o in h.bits ==> h.bits[o] == OLD
  }

  /** After a full collection every survivor is old and unmarked and nothing is remembered. */
  lemma FullLeavesOld(h: Heap, keep: set<nat>, roots: seq<nat>, h': Heap)
    requires Inv(h, keep) && Collected(h, roots, true, h')
    ensures h'.remset == [] && h'.prevFull && AllOld(h')
  {
  }

  /** How a survivor ages. A full collection makes it old and unmarked. A quick one makes a young one old, leaves a
      promoted one promoted, marks an old one exactly when it marks it as reached, and promotes or requeues a remembered one. */
  ghost predicate AgesTo(h: Heap, roots: seq<nat>, full: bool, o: nat, b: nat)
    requires o in h.bits
  {
    if full || h.bits[o] == CLEAN then b == OLD
    else if h.bits[o] == OLD_MARKED then b == OLD_MARKED
    else if h.bits[o] == MARKED then b in {OLD_MARKED, MARKED}
    else b in {OLD, OLD_MARKED, MARKED}
         && (b != OLD ==> Reaches(h.refs, roots + h.remset, o)) && (Reaches(h.refs, roots, o) ==> b != OLD)
  }

  ghost predicate SurvivorsAge(h: Heap, roots: seq<nat>, full: bool, h': Heap) {
    forall o :: o in h'.refs ==> o in h.bits && o in h'.bits && AgesTo(h, roots, full, o, h'.bits[o])
  }

  lemma SurvivorAges(h: Heap, keep: set<nat>, roots: seq<nat>, full: bool, h': Heap, o: nat)
    requires Inv(h, keep) && Collected(h, roots, full, h') && o in h'.refs
    ensures o in h.bits && o in h'.bits && AgesTo(h, roots, full, o, h'.bits[o])
  {
    hide Reaches, ChildrenMarked, HasYoungMarked, RefPath;
    var m, left :| MarkPhase(h, roots, m) && Shaped(m) && SweepFrees(m, full, left) && h' == AfterSweep(m, full, left);
    assert o in left && MarkStep(h, m, o);
    if Reaches(h.refs, roots, o) {
      MarkedIsClosed(h, keep, roots, m);
      ReachedIsKept(m.refs, MarkedSet(m), roots, o);
    }
  }

  /** The young objects among those left are reached from the roots or the remembered objects. */
  ghost predicate YoungIsReached(h: Heap, roots: seq<nat>, h': Heap) {
    forall o :: o in h'.refs && o in h.bits && h.bits[o] == CLEAN ==> Reaches(h.refs, roots + h.remset, o)
  }

  /** Every collection frees the young objects that neither the roots nor the remembered objects reach. */
  lemma YoungGarbageGoes(h: Heap, roots: seq<nat>, full: bool, h': Heap)
    requires Collected(h, roots, full, h')
    ensures YoungIsReached(h, roots, h')
  {
    hide Reaches, ChildrenMarked, HasYoungMarked, MarkedSet;
    var m, left :| MarkPhase(h, roots, m) && Shaped(m) && SweepFrees(m, full, left) && h' == AfterSweep(m, full, left);
    forall o | o in h'.refs && o in h.bits && h.bits[o] == CLEAN ensures Reaches(h.refs, roots + h.remset, o) {
      assert o in left && m.bits[o] != CLEAN;
      if o in h.remset {
        ReachesSeed(h.refs, roots + h.remset, o);
      }
    }
  }

  /** A collection that follows a full one, with only mutator steps in between, leaves exactly the
      reachable objects. */
  lemma NextIsExact(h: Heap, keep: set<nat>, roots: seq<nat>, full: bool, h': Heap, o: nat)
    requires Inv(h, keep) && h.prevFull && Collected(h, roots, full, h')
    ensures o in h'.refs <==> Reaches(h.refs, roots, o)
  {
    if Reaches(h.refs, roots, o) {
      ReachableSurvives(h, keep, roots, full, h', o);
    }
    if o in h'.refs {
      var m, left :| MarkPhase(h, roots, m) && Shaped(m) && SweepFrees(m, full, left) && h' == AfterSweep(m, full, left);
      assert o in MarkedSet(m);
      NothingQueued(h, keep);
      MarkedIsReached(h, keep, roots, m, o);
    }
  }

  lemma HasMember(s: seq<nat>)
    requires s != []
    ensures exists o :: o in s
  {
    assert s[0] in s;
  }

  lemma NothingQueued(h: Heap, keep: set<nat>)
    requires Inv(h, keep) && h.prevFull
    ensures h.remset == []
  {
    if h.remset != [] {
      HasMember(h.remset);
    }
  }

  lemma MarkedIsReached(h: Heap, keep: set<nat>, roots: seq<nat>, m: Heap, o: nat)
    requires Inv(h, keep) && h.prevFull && h.remset == [] && MarkPhase(h, roots, m) && o in MarkedSet(m)
    ensures Reaches(h.refs, roots, o)
  {
    assert MarkStep(h, m, o);
    assert roots + h.remset == roots;
  }

  // --- runs -------------------------------------------------------------------------------------------

  /** The heap, the root stack, and the objects whose references the mutator may hold: those it could
      reach after the last collection and those allocated since. */
  datatype State = State(heap: Heap, roots: seq<nat>, held: set<nat>)

  datatype Action =
    | Alloc(o: nat, refs: seq<nat>)
    | Store(parent: nat, k: nat, child: nat)
    | Root(v: nat)
    | Unroot
    | Collect(full: bool)

  ghost predicate Initial(s: State) {
    s == State(Heap(map[], map[], [], false), [], {})
  }

  /** The mutator touches only objects it holds; it need not root them until the next collection. */
  ghost predicate Step(s: State, a: Action, s': State) {
    match a
    case Alloc(o, refs) =>
      && o != 0 && o !in s.heap.refs && (forall c :: c in refs && c != 0 ==> c in s.held + {o})
      && s' == State(NewObject(s.heap, o, refs), s.roots, s.held + {o})
    case Store(p, k, c) =>
      && p in s.held && p in s.heap.bits && p in s.heap.refs && k < |s.heap.refs[p]|
      && (c != 0 ==> c in s.held && c in s.heap.bits)
      && s' == s.(heap := SetRef(s.heap, p, k, c))
    case Root(v) => (v != 0 ==> v in s.held) && s' == s.(roots := s.roots + [v])
    case Unroot => s.roots != [] && s' == s.(roots := s.roots[..|s.roots| - 1])
    case Collect(full) =>
      && Collected(s.heap, s.roots, full, s'.heap) && s'.roots == s.roots
      && s'.held == set o | o in s'.heap.refs && Reaches(s.heap.refs, s.roots, o)
  }

  ghost predicate Good(s: State) {
    exists keep :: GoodWith(s, keep)
  }

  ghost predicate GoodWith(s: State, keep: set<nat>) {
    Inv(s.heap, keep) && s.held <= keep && forall r :: r in s.roots && r != 0 ==> r in s.held
  }

  lemma StepKeepsGood(s: State, a: Action, s': State)
    requires Good(s) && Step(s, a, s')
    ensures Good(s')
  {
    var keep :| GoodWith(s, keep);
    match a
    case Alloc(o, refs) =>
      NewObjectKeepsInv(s.heap, keep, o, refs);
      assert GoodWith(s', keep + {o});
    case Store(p, k, c) =>
      SetRefKeepsInv(s.heap, keep, p, k, c);
      assert GoodWith(s', keep);
    case Root(v) => assert GoodWith(s', keep);
    case Unroot => assert GoodWith(s', keep);
    case Collect(full) => CollectKeepsGood(s, full, s', keep);
  }

  lemma CollectKeepsGood(s: State, full: bool, s': State, keep: set<nat>)
    requires GoodWith(s, keep) && Step(s, Collect(full), s')
    ensures Good(s')
  {
    var h := s.heap;
    var m, left :| MarkPhase(h, s.roots, m) && Shaped(m) && SweepFrees(m, full, left) && s'.heap == AfterSweep(m, full, left);
    CollectKeepsInv(h, keep, s.roots, m, full, left);
    MarkedIsClosed(h, keep, s.roots, m);
    forall o | o in s'.held ensures o in MarkedSet(m) {
      ReachedIsKept(h.refs, MarkedSet(m), s.roots, o);
    }
    forall r | r in s.roots && r != 0 ensures r in s'.held {
      ReachesSeed(h.refs, s.roots, r);
      ReachableSurvives(h, keep, s.roots, full, s'.heap, r);
    }
    assert GoodWith(s', MarkedSet(m));
  }

  /** A run from the empty heap under any interleaving of mutator steps and collections. */
  ghost predicate Run(states: seq<State>, actions: seq<Action>) {
    && |states| == |actions| + 1 && Initial(states[0])
    && forall i :: 0 <= i < |actions| ==> Step(states[i], actions[i], states[i + 1])
  }

  lemma {:induction false} RunIsGood(states: seq<State>, actions: seq<Action>, i: nat)
    requires Run(states, actions) && i < |states|
    ensures Good(states[i])
  {
    if i == 0 {
      assert GoodWith(states[0], {});
    } else {
      RunIsGood(states, actions, i - 1);
      assert Step(states[i - 1], actions[i - 1], states[i]);
      StepKeepsGood(states[i - 1], actions[i - 1], states[i]);
    }
  }

  /** In every run, what the roots reach is allocated, no step frees it, and a collection leaves its
      references as they were. */
  lemma RunIsSafe(states: seq<State>, actions: seq<Action>, i: nat, o: nat)
    requires Run(states, actions) && i < |actions| && Reaches(states[i].heap.refs, states[i].roots, o)
    ensures o in states[i].heap.refs && o in states[i + 1].heap.refs
    ensures actions[i].Collect? ==> states[i + 1].heap.refs[o] == states[i].heap.refs[o]
  {
    RunIsGood(states, actions, i);
    var s, s' := states[i], states[i + 1];
    var keep :| GoodWith(s, keep);
    assert Step(s, actions[i], s');
    ReachedIsKept(s.heap.refs, keep, s.roots, o);
    if actions[i].Collect? {
      ReachableSurvives(s.heap, keep, s.roots, actions[i].full, s'.heap, o);
    }
  }

  /** In every run, the remembered set is exactly the queued objects and every old-marked object is guarded. */
  lemma RunKeepsQueue(states: seq<State>, actions: seq<Action>, i: nat)
    requires Run(states, actions) && i < |states|
    ensures QueueExact(states[i].heap) && OldMarkedGuarded(states[i].heap)
  {
    RunIsGood(states, actions, i);
    var keep :| GoodWith(states[i], keep);
  }

  lemma {:induction false} MutatorKeepsPrevFull(states: seq<State>, actions: seq<Action>, i: nat, j: nat)
    requires Run(states, actions) && i <= j < |states| && states[i].heap.prevFull
    requires forall k :: i <= k < j ==> !actions[k].Collect?
    ensures states[j].heap.prevFull
    decreases j
  {
    if i < j {
      MutatorKeepsPrevFull(states, actions, i, j - 1);
      assert Step(states[j - 1], actions[j - 1], states[j]);
    }
  }

  /** In every run, after a full collection at step `i` and nothing but mutator steps up to `j`, the
      collection at step `j`, quick or full, leaves exactly what the roots reach. */
  lemma RunIsExactAfterFull(states: seq<State>, actions: seq<Action>, i: nat, j: nat, o: nat)
    requires Run(states, actions) && i < j < |actions|
    requires actions[i] == Collect(true) && (forall k :: i < k < j ==> !actions[k].Collect?) && actions[j].Collect?
    ensures states[i + 1].heap.remset == [] && AllOld(states[i + 1].heap)
    ensures o in states[j + 1].heap.refs <==> Reaches(states[j].heap.refs, states[j].roots, o)
  {
    RunIsGood(states, actions, i);
    RunIsGood(states, actions, j);
    var keepI :| GoodWith(states[i], keepI);
    var keepJ :| GoodWith(states[j], keepJ);
    assert Step(states[i], actions[i], states[i + 1]) && Step(states[j], actions[j], states[j + 1]);
    FullLeavesOld(states[i].heap, keepI, states[i].roots, states[i + 1].heap);
    MutatorKeepsPrevFull(states, actions, i + 1, j);
    NextIsExact(states[j].heap, keepJ, states[j].roots, actions[j].full, states[j + 1].heap, o);
  }
}
