/** The mark phase step by step: remembered objects first, then a work list. */
module GcMark {
  import opened GcModel

  /** `o` has been traced when `pending` of the remembered objects are still to be restored. */
  ghost predicate Traced(h: Heap, m: Heap, pending: seq<nat>, o: nat) {
    o in h.bits && o in m.bits && if o in h.remset then o !in pending else m.bits[o] != h.bits[o]
  }

  ghost predicate MarkInv(h: Heap, keep: set<nat>, roots: seq<nat>, m: Heap, pending: seq<nat>, work: seq<nat>) {
    && m.refs == h.refs && m.bits.Keys == h.bits.Keys && m.prevFull == h.prevFull
    && NoDuplicates(pending) && (forall o :: o in pending ==> o in h.remset)
    && (forall o :: o in h.bits ==> BitsSoFar(h, m, pending, o))
    && AllFound(h, roots, m, pending, work)
    && AllReached(h, keep, roots, m, work)
    && RememberedSoFar(h, m, pending)
  }

  /** Roots and children of traced objects are marked or on the work list. */
  ghost predicate AllFound(h: Heap, roots: seq<nat>, m: Heap, pending: seq<nat>, work: seq<nat>) {
    && (forall r :: r in roots && r != 0 ==> Found(m, work, r))
    && (forall o :: Traced(h, m, pending, o) ==> ChildrenFound(m, work, o))
  }

  /** Work items and newly marked objects are reached from the roots or the remembered set. */
  ghost predicate AllReached(h: Heap, keep: set<nat>, roots: seq<nat>, m: Heap, work: seq<nat>) {
    && (forall w :: w in work && w != 0 ==> w in keep && Reaches(h.refs, roots + h.remset, w))
    && (forall o :: o in h.bits && o in m.bits && o !in h.remset && m.bits[o] != h.bits[o] ==>
          Reaches(h.refs, roots + h.remset, o))
  }

  /** The rebuilt set holds, once each, traced old objects, among them all that refer to a young object. */
  ghost predicate RememberedSoFar(h: Heap, m: Heap, pending: seq<nat>) {
    && NoDuplicates(m.remset)
    && (forall o :: o in m.remset ==> Traced(h, m, pending, o) && m.bits[o] == OLD_MARKED)
    && (forall o :: Traced(h, m, pending, o) && m.bits[o] == OLD_MARKED && HasYoungRef(m, o) ==> o in m.remset)
  }

  ghost predicate BitsSoFar(h: Heap, m: Heap, pending: seq<nat>, o: nat) {
    o in h.bits && o in m.bits && if o in pending then m.bits[o] == MARKED else MarkStep(h, m, o)
  }

  /** `r` is marked, or on the work list to be. */
  ghost predicate Found(m: Heap, work: seq<nat>, r: nat) {
    r in m.bits && (HasMark(m.bits[r]) || r in work)
  }

  ghost predicate ChildrenFound(m: Heap, work: seq<nat>, o: nat) {
    o in m.refs && forall c :: c in m.refs[o] && c != 0 ==> Found(m, work, c)
  }

  /** `o` refers to an object without the old bit. */
  ghost predicate HasYoungRef(m: Heap, o: nat) {
    o in m.refs && exists c :: c in m.refs[o] && c != 0 && c in m.bits && !IsOld(m.bits[c])
  }

  lemma MarkStart(h: Heap, keep: set<nat>, roots: seq<nat>)
    requires Inv(h, keep) && forall r :: r in roots && r != 0 ==> r in keep
    ensures MarkInv(h, keep, roots, h.(remset := []), h.remset, roots)
  {
    forall r | r in roots && r != 0 ensures Reaches(h.refs, roots + h.remset, r) {
      ReachesSeed(h.refs, roots + h.remset, r);
    }
  }

  /** Restore the first pending object, trace it, and remember it again if it refers to a young object. */
  function Restore(m: Heap, p: nat, again: bool): Heap {
    m.(bits := m.bits[p := OLD_MARKED], remset := if again then m.remset + [p] else m.remset)
  }

  lemma RestoreBits(h: Heap, keep: set<nat>, roots: seq<nat>, m: Heap, pending: seq<nat>, work: seq<nat>, m': Heap, o: nat)
    requires MarkInv(h, keep, roots, m, pending, work) && pending != [] && o in h.bits
    requires m'.bits == m.bits[pending[0] := OLD_MARKED]
    ensures BitsSoFar(h, m', pending[1..], o)
    ensures o != pending[0] ==> (Traced(h, m, pending, o) <==> Traced(h, m', pending[1..], o)) && m'.bits[o] == m.bits[o]
  {
    assert pending == [pending[0]] + pending[1..];
    assert BitsSoFar(h, m, pending, o);
  }

  lemma RestoreRemembers(h: Heap, keep: set<nat>, roots: seq<nat>, m: Heap, pending: seq<nat>, work: seq<nat>, again: bool)
    requires MarkInv(h, keep, roots, m, pending, work) && pending != [] && Shaped(h)
    requires pending[0] in h.bits && pending[0] in m.refs
    requires again <==> HasYoungRef(m.(bits := m.bits[pending[0] := OLD_MARKED]), pending[0])
    ensures RememberedSoFar(h, Restore(m, pending[0], again), pending[1..])
  {
    var p, rest, m' := pending[0], pending[1..], Restore(m, pending[0], again);
    assert pending == [p] + rest && p in pending && p !in rest;
    assert p !in m.remset;
    forall o | Traced(h, m', rest, o) && m'.bits[o] == OLD_MARKED && HasYoungRef(m', o) ensures o in m'.remset {
      if o != p {
        RestoreBits(h, keep, roots, m, pending, work, m', o);
        assert HasYoungRef(m, o);
      }
    }
    forall o | o in m'.remset ensures Traced(h, m', rest, o) && m'.bits[o] == OLD_MARKED {
      if o in m.remset {
        RestoreBits(h, keep, roots, m, pending, work, m', o);
      }
    }
  }

  lemma RestoreFinds(h: Heap, keep: set<nat>, roots: seq<nat>, m: Heap, pending: seq<nat>, work: seq<nat>, again: bool)
    requires MarkInv(h, keep, roots, m, pending, work) && pending != [] && pending[0] in m.refs && pending[0] in keep && Closed(h.refs, keep) && Shaped(h)
    ensures AllFound(h, roots, Restore(m, pending[0], again), pending[1..], work + m.refs[pending[0]])
  {
    hide RememberedSoFar, AllReached;
    var p, rest, m' := pending[0], pending[1..], Restore(m, pending[0], again);
    var work' := work + m.refs[p];
    assert pending == [p] + rest && p in pending && p !in rest;
    forall c | Found(m, work, c) ensures Found(m', work', c) {}
    forall o | Traced(h, m', rest, o) ensures ChildrenFound(m', work', o) {
      if o != p {
        RestoreBits(h, keep, roots, m, pending, work, m', o);
        assert ChildrenFound(m, work, o);
      }
    }
  }

  lemma MarkRestore(h: Heap, keep: set<nat>, roots: seq<nat>, m: Heap, pending: seq<nat>, work: seq<nat>, again: bool)
    requires Inv(h, keep) && MarkInv(h, keep, roots, m, pending, work) && pending != []
    requires pending[0] in m.refs && (again <==> HasYoungRef(m.(bits := m.bits[pending[0] := OLD_MARKED]), pending[0]))
    ensures MarkInv(h, keep, roots, Restore(m, pending[0], again), pending[1..], work + m.refs[pending[0]])
  {
    hide HasYoungRef, RememberedSoFar, Reaches, AllFound, Traced, OldMarkedGuarded;
    var p, rest, m' := pending[0], pending[1..], Restore(m, pending[0], again);
    var work' := work + m.refs[p];
    assert pending == [p] + rest && p in pending && p !in rest;
    assert p in h.remset && p in keep;
    RestoreFinds(h, keep, roots, m, pending, work, again);
    RestoreRemembers(h, keep, roots, m, pending, work, again);
    forall o | o in h.bits ensures BitsSoFar(h, m', rest, o) {
      RestoreBits(h, keep, roots, m, pending, work, m', o);
    }
    forall w | w in work' && w != 0 ensures w in keep && Reaches(h.refs, roots + h.remset, w) {
      if w !in work {
        ReachesSeed(h.refs, roots + h.remset, p);
        ReachesChild(h.refs, roots + h.remset, p, w);
      }
    }
  }

  /** Dropping a work item that is null or marked. */
  lemma MarkSkip(h: Heap, keep: set<nat>, roots: seq<nat>, m: Heap, work: seq<nat>)
    requires MarkInv(h, keep, roots, m, [], work) && work != []
    requires var v := work[|work| - 1]; v == 0 || (v in m.bits && HasMark(m.bits[v]))
    ensures MarkInv(h, keep, roots, m, [], work[..|work| - 1])
  {
    var v, rest := work[|work| - 1], work[..|work| - 1];
    assert work == rest + [v];
    forall o | Traced(h, m, [], o) ensures ChildrenFound(m, rest, o) {
      assert ChildrenFound(m, work, o);
      forall c | c in m.refs[o] && c != 0 ensures Found(m, rest, c) {
        assert Found(m, work, c);
      }
    }
    forall r | r in roots && r != 0 ensures Found(m, rest, r) {
      assert Found(m, work, r);
    }
  }

  /** Mark and trace the last work item; remember it if it is old and refers to a young object. */
  function Visit(m: Heap, v: nat, again: bool): Heap
    requires v in m.bits
  {
    m.(bits := m.bits[v := m.bits[v] + MARKED], remset := if again then m.remset + [v] else m.remset)
  }

  lemma MarkVisit(h: Heap, keep: set<nat>, roots: seq<nat>, m: Heap, work: seq<nat>, again: bool)
    requires Inv(h, keep) && MarkInv(h, keep, roots, m, [], work) && work != []
    requires var v := work[|work| - 1];
             && v != 0 && v in m.bits && v in m.refs && !HasMark(m.bits[v])
             && (again <==> IsOld(m.bits[v]) && HasYoungRef(m.(bits := m.bits[v := m.bits[v] + MARKED]), v))
    ensures var v := work[|work| - 1];
            MarkInv(h, keep, roots, Visit(m, v, again), [], work[..|work| - 1] + m.refs[v])
  {
    hide HasYoungRef, RememberedSoFar, Reaches, AllFound, Traced, AllReached, QueueExact, MarksKept, OldMarkedGuarded;
    var v := work[|work| - 1];
    var m' := Visit(m, v, again);
    VisitReaches(h, keep, roots, m, work, again);
    assert BitsSoFar(h, m, [], v) && h.bits[v] < 4;
    forall o | o in h.bits ensures BitsSoFar(h, m', [], o) {
      assert BitsSoFar(h, m, [], o);
    }
    VisitFinds(h, keep, roots, m, work, again);
    VisitRemembers(h, keep, roots, m, work, again);
  }

  lemma VisitReaches(h: Heap, keep: set<nat>, roots: seq<nat>, m: Heap, work: seq<nat>, again: bool)
    requires Inv(h, keep) && MarkInv(h, keep, roots, m, [], work) && work != []
    requires var v := work[|work| - 1]; v != 0 && v in m.bits && v in m.refs && !HasMark(m.bits[v])
    ensures var v := work[|work| - 1];
            v in keep && v !in h.remset && AllReached(h, keep, roots, Visit(m, v, again), work[..|work| - 1] + m.refs[v])
  {
    hide HasYoungRef, RememberedSoFar, Reaches, AllFound, OldMarkedGuarded;
    var v, rest := work[|work| - 1], work[..|work| - 1];
    assert work == rest + [v] && v in work;
    assert BitsSoFar(h, m, [], v);
    forall w | w in rest + m.refs[v] && w != 0 ensures w in keep && Reaches(h.refs, roots + h.remset, w) {
      if w !in rest {
        ReachesChild(h.refs, roots + h.remset, v, w);
      } else {
        assert w in work;
      }
    }
  }

  lemma VisitFinds(h: Heap, keep: set<nat>, roots: seq<nat>, m: Heap, work: seq<nat>, again: bool)
    requires MarkInv(h, keep, roots, m, [], work) && work != [] && Closed(h.refs, keep) && Shaped(h)
    requires var v := work[|work| - 1]; v != 0 && v in m.bits && v in m.refs && v in keep && !HasMark(m.bits[v])
    ensures var v := work[|work| - 1]; AllFound(h, roots, Visit(m, v, again), [], work[..|work| - 1] + m.refs[v])
  {
    hide RememberedSoFar, AllReached;
    var v, rest := work[|work| - 1], work[..|work| - 1];
    var m', work' := Visit(m, v, again), rest + m.refs[v];
    assert work == rest + [v];
    assert BitsSoFar(h, m, [], v) && h.bits[v] < 4;
    forall c | Found(m, work, c) ensures Found(m', work', c) {}
    forall o | Traced(h, m', [], o) ensures ChildrenFound(m', work', o) {
      if o != v {
        assert ChildrenFound(m, work, o);
      } else {
        forall c | c in m.refs[v] && c != 0 ensures Found(m', work', c) {
          assert c in keep;
        }
      }
    }
  }

  lemma VisitRemembers(h: Heap, keep: set<nat>, roots: seq<nat>, m: Heap, work: seq<nat>, again: bool)
    requires MarkInv(h, keep, roots, m, [], work) && work != [] && Shaped(h)
    requires var v := work[|work| - 1];
             && v != 0 && v in m.bits && v in m.refs && !HasMark(m.bits[v])
             && (again <==> IsOld(m.bits[v]) && HasYoungRef(m.(bits := m.bits[v := m.bits[v] + MARKED]), v))
    ensures var m' := Visit(m, work[|work| - 1], again);
            RememberedSoFar(h, m', [])
  {
    var v := work[|work| - 1];
    var m' := Visit(m, v, again);
    assert BitsSoFar(h, m, [], v) && h.bits[v] < 4;
    assert v !in m.remset;
    forall o | o in m'.remset ensures Traced(h, m', [], o) && m'.bits[o] == OLD_MARKED {}
    forall o | Traced(h, m', [], o) && m'.bits[o] == OLD_MARKED && HasYoungRef(m', o) ensures o in m'.remset {
      if o != v {
        assert Traced(h, m, [], o) && HasYoungRef(m, o);
      }
    }
  }

  /** With nothing left to do, the phase has had the effect the model asks for. */
  lemma MarkDone(h: Heap, keep: set<nat>, roots: seq<nat>, m: Heap)
    requires Inv(h, keep) && MarkInv(h, keep, roots, m, [], [])
    ensures MarkPhase(h, roots, m)
  {
    forall o | o in h.bits ensures MarkStep(h, m, o) {
      assert BitsSoFar(h, m, [], o);
    }
    forall r | r in roots && r != 0 ensures r in m.bits && HasMark(m.bits[r]) {
      assert Found(m, [], r);
    }
    forall o | o in h.bits && Scanned(h, m, o) ensures ChildrenMarked(m, o) {
      assert Traced(h, m, [], o);
      assert ChildrenFound(m, [], o);
      forall c | c in m.refs[o] && c != 0 ensures c in m.bits && HasMark(m.bits[c]) {
        assert Found(m, [], c);
      }
    }
    forall o | o in h.bits && Scanned(h, m, o) && m.bits[o] == OLD_MARKED && HasYoungMarked(m, o) ensures o in m.remset {
      assert Traced(h, m, [], o);
      var c :| c in m.refs[o] && c in m.bits && m.bits[c] == MARKED;
      assert c != 0;
      assert HasYoungRef(m, o);
    }
  }
}
