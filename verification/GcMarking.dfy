/** The mark phase on the pooled heap: what page flags mean while marking, and how each step of the
    abstract phase shows up in headers, pages and the remembered set. */
module GcMarking {
  import opened GcModel
  import opened GcMark
  import opened GcPages
  import opened GcState
  import opened GcOps

  function OldMarkedCells(hdr: map<nat, nat>, occ: set<nat>): set<nat>
    requires occ <= hdr.Keys
  {
    set c | c in occ && Bits(hdr[c]) == OLD_MARKED
  }

  /** Page flags while `pending` remembered objects are still to be restored.  After a full sweep the
      old count is exact. */
  ghost predicate MarkFlags(hdr: map<nat, nat>, pg: Page, occ: set<nat>, prevFull: bool, pending: seq<nat>)
    requires occ <= hdr.Keys
  {
    && (!pg.hasMarked ==> forall o :: o in occ ==> Bits(hdr[o]) == CLEAN)
    && (!pg.hasYoung ==> forall o :: o in occ ==> IsOld(Bits(hdr[o])) || o in pending)
    && (prevFull ==> pg.nold == |OldMarkedCells(hdr, occ)| && (!pg.hasYoung ==> pg.prevNold == |occ|))
  }

  ghost predicate PageMarking(s: Snap, i: nat, pending: seq<nat>)
    requires i < |s.pages| == |s.views|
  {
    s.views[i].occ <= s.hdr.Keys && MarkFlags(s.hdr, s.pages[i], s.views[i].occ, s.prevFull, pending)
  }

  /** A settled big object is old-marked, or queued and still to be restored. */
  ghost predicate OldBig(hdr: map<nat, nat>, o: nat, pending: seq<nat>) {
    o in hdr && HasMark(Bits(hdr[o])) && (Bits(hdr[o]) == MARKED ==> o in pending)
  }

  /** During a collection, up to the sweep. */
  ghost predicate Marking(s: Snap, pending: seq<nat>) {
    && Sound(s)
    && (forall i :: 0 <= i < |s.pages| && s.pages[i].inUse ==> PageMarking(s, i, pending))
    && (forall o :: o in Offs(s.bigsOld) ==> OldBig(s.hdr, o, pending))
    && (s.prevFull ==> s.bigsOld == [] && pending == [])
  }

  lemma StartMarking(s: Snap, keep: set<nat>)
    requires Valid(s) && Inv(Abs(s), keep)
    ensures Marking(s.(remembered := []), s.remembered)
    ensures Abs(s.(remembered := [])) == Abs(s).(remset := [])
  {
    hide TableOk, LayoutOk, PoolsOk, Bits, Objs, Closed, MarksKept, OldMarkedGuarded, SumLive, Shaped;
    var s' := s.(remembered := []);
    assert Objs(s') == Objs(s) by { ObjsIgnore(s, s'); }
    if s.prevFull {
      NothingQueued(Abs(s), keep);
    }
    forall i | 0 <= i < |s'.pages| && s'.pages[i].inUse ensures PageMarking(s', i, s.remembered) {
      OccInHdr(s, i);
      OccIsObject(s, i);
      StartPage(s, i, keep);
    }
    forall o | o in Offs(s.bigsOld) ensures OldBig(s.hdr, o, s.remembered) {
      OldIsObject(s, o);
      assert Abs(s).bits[o] == Bits(s.hdr[o]);
    }
  }

  lemma StartPage(s: Snap, i: nat, keep: set<nat>)
    requires Valid(s) && Inv(Abs(s), keep) && i < |s.pages| && s.pages[i].inUse
    requires s.views[i].occ <= s.hdr.Keys && s.views[i].occ <= Objs(s)
    ensures MarkFlags(s.hdr, s.pages[i], s.views[i].occ, s.prevFull, s.remembered)
  {
    hide TableOk, LayoutOk, PoolsOk, Bits, Objs, Closed, MarksKept, OldMarkedGuarded, SumLive;
    assert PageFlags(s, i);
    forall o | o in s.views[i].occ ensures o in Abs(s).bits && Abs(s).bits[o] == Bits(s.hdr[o]) {}
    if s.prevFull {
      assert OldMarkedCells(s.hdr, s.views[i].occ) == {};
    }
  }

  // --- page flags do not affect the structure ----------------------------------------------------

  predicate SameLayout(a: Page, b: Page) {
    && a.start == b.start && a.osize == b.osize && a.freelist == b.freelist && a.nfree == b.nfree
    && a.liveN == b.liveN && a.inUse == b.inUse && a.bump == b.bump
  }

  lemma FlagsKeepSound(s: Snap, q: nat, pg': Page)
    requires Sound(s) && q < |s.pages| && SameLayout(s.pages[q], pg')
    ensures Sound(s.(pages := s.pages[q := pg'])) && Objs(s.(pages := s.pages[q := pg'])) == Objs(s)
  {
    hide PageOk, LayoutOk, PoolsOk;
    var s' := s.(pages := s.pages[q := pg']);
    if s.pages[q].inUse { LayoutPageOk(s.hdr, s.pages[q], s.views[q], pg'); }
    assert s.views[q := s.views[q]] == s.views;
    TableReplace(s.hdr, s.hdr, s.pages, s.views, s.top, q, pg', s.views[q]);
    LayoutSameStarts(AllBlocks(s), s.pages, s'.pages, s.top);
    PoolsSame(s.pages, s'.pages, s.pools, s.freePages);
  }

  lemma LayoutPageOk(hdr: map<nat, nat>, pg: Page, v: View, pg': Page)
    requires PageOk(hdr, pg, v) && SameLayout(pg, pg')
    ensures PageOk(hdr, pg', v)
  {
  }

  lemma PoolsSame(pages: seq<Page>, pages': seq<Page>, pools: seq<Pool>, freePages: seq<nat>)
    requires PoolsOk(pages, pools, freePages) && |pages'| == |pages|
    requires forall i :: 0 <= i < |pages| ==> SameLayout(pages[i], pages'[i])
    ensures PoolsOk(pages', pools, freePages)
  {
    forall p: nat, r: nat | p < |pools| && r in pools[p].pageQ ensures InClass(pages', r, pools[p].osize) {
      assert InClass(pages, r, pools[p].osize);
    }
    forall i: nat | i < |pages'| && pages'[i].inUse && 0 < pages'[i].nfree ensures Queued(pools, i, pages'[i].osize) {
      assert SameLayout(pages[i], pages'[i]);
      assert Queued(pools, i, pages[i].osize);
    }
    forall q: nat ensures q in freePages <==> q < |pages'| && !pages'[q].inUse {
      if q < |pages| { assert SameLayout(pages[q], pages'[q]); }
    }
  }

  // --- restoring a remembered object ------------------------------------------------------------------

  lemma RestoreMarking(s: Snap, pending: seq<nat>)
    requires Marking(s, pending) && pending != [] && pending[0] in Objs(s) && Bits(s.hdr[pending[0]]) == MARKED
    ensures Marking(s.(hdr := SetBits(s.hdr, pending[0], OLD_MARKED)), pending[1..])
  {
    hide TableOk, LayoutOk, PoolsOk, Bits, WithBits, Objs;
    var p := pending[0];
    var s' := s.(hdr := SetBits(s.hdr, p, OLD_MARKED));
    WithBitsBits(s.hdr[p], OLD_MARKED);
    HeadersKeepSound(s, s'.hdr);
    assert pending == [p] + pending[1..];
    forall i | 0 <= i < |s'.pages| && s'.pages[i].inUse ensures PageMarking(s', i, pending[1..]) {
      assert PageMarking(s, i, pending);
    }
    forall o | o in Offs(s'.bigsOld) ensures OldBig(s'.hdr, o, pending[1..]) {
      assert OldBig(s.hdr, o, pending);
    }
  }

  // --- visiting an unmarked object --------------------------------------------------------------------------

  /** Page bookkeeping for an object that has just been marked. */
  function NoteMark(pg: Page, wasOld: bool): Page {
    if wasOld then pg.(hasMarked := true, nold := pg.nold + 1) else pg.(hasMarked := true, hasYoung := true)
  }

  lemma NoteFlags(hdr: map<nat, nat>, pg: Page, occ: set<nat>, prevFull: bool, v: nat)
    requires occ <= hdr.Keys && v in occ && MarkFlags(hdr, pg, occ, prevFull, []) && !HasMark(Bits(hdr[v])) && Bits(hdr[v]) < 4
    ensures MarkFlags(SetBits(hdr, v, Bits(hdr[v]) + MARKED), NoteMark(pg, IsOld(Bits(hdr[v]))), occ, prevFull, [])
  {
    hide Bits, WithBits;
    var b := Bits(hdr[v]);
    var hdr' := SetBits(hdr, v, b + MARKED);
    WithBitsBits(hdr[v], b + MARKED);
    if IsOld(b) {
      assert OldMarkedCells(hdr', occ) == OldMarkedCells(hdr, occ) + {v};
    } else {
      assert OldMarkedCells(hdr', occ) == OldMarkedCells(hdr, occ);
    }
  }

  lemma OtherFlags(hdr: map<nat, nat>, pg: Page, occ: set<nat>, prevFull: bool, v: nat, b: nat)
    requires occ <= hdr.Keys && v in hdr && v !in occ && MarkFlags(hdr, pg, occ, prevFull, [])
    ensures MarkFlags(SetBits(hdr, v, b), pg, occ, prevFull, [])
  {
    hide Bits, WithBits;
    assert OldMarkedCells(SetBits(hdr, v, b), occ) == OldMarkedCells(hdr, occ);
  }

  /** `q` is the page in use that holds `v`, or the number of pages when none does. */
  ghost predicate Holds(s: Snap, q: nat, v: nat)
    requires |s.views| == |s.pages|
  {
    && q <= |s.pages| && (q < |s.pages| ==> s.pages[q].inUse && v in s.views[q].occ)
    && (q == |s.pages| ==> v !in PageObjs(s.views))
  }

  ghost function VisitSnap(s: Snap, q: nat, v: nat): Snap
    requires v in s.hdr && q <= |s.pages|
  {
    var b := Bits(s.hdr[v]);
    var s1 := s.(hdr := SetBits(s.hdr, v, b + MARKED));
    if q < |s.pages| then s1.(pages := s.pages[q := NoteMark(s.pages[q], IsOld(b))]) else s1
  }

  lemma VisitSound(s: Snap, q: nat, v: nat)
    requires Sound(s) && v in Objs(s) && q <= |s.pages|
    ensures Sound(VisitSnap(s, q, v)) && Objs(VisitSnap(s, q, v)) == Objs(s)
  {
    hide TableOk, LayoutOk, PoolsOk, Bits, WithBits;
    var s1 := s.(hdr := SetBits(s.hdr, v, Bits(s.hdr[v]) + MARKED));
    HeadersKeepSound(s, s1.hdr);
    if q < |s.pages| {
      FlagsKeepSound(s1, q, NoteMark(s.pages[q], IsOld(Bits(s.hdr[v]))));
    }
  }

  lemma VisitMarking(s: Snap, q: nat, v: nat)
    requires Marking(s, []) && v in Objs(s) && Holds(s, q, v) && !HasMark(Bits(s.hdr[v])) && Bits(s.hdr[v]) < 4
    ensures Marking(VisitSnap(s, q, v), [])
  {
    hide Sound, Bits, WithBits, Objs, MarkFlags, NoteMark;
    VisitSound(s, q, v);
    SoundSizes(s);
    var b, s' := Bits(s.hdr[v]), VisitSnap(s, q, v);
    NoteKeeps(s, q, v);
    forall i | 0 <= i < |s'.pages| && s'.pages[i].inUse ensures PageMarking(s', i, []) {
      assert PageMarking(s, i, []);
      if i == q {
        NoteFlags(s.hdr, s.pages[i], s.views[i].occ, s.prevFull, v);
      } else {
        OnlyPage(s, q, v, i);
        OtherFlags(s.hdr, s.pages[i], s.views[i].occ, s.prevFull, v, b + MARKED);
      }
    }
    forall o | o in Offs(s'.bigsOld) ensures OldBig(s'.hdr, o, []) {
      assert OldBig(s.hdr, o, []);
    }
  }

  lemma SoundSizes(s: Snap)
    requires Sound(s)
    ensures |s.views| == |s.pages| && Objs(s) <= s.hdr.Keys
  {
  }

  lemma NoteKeeps(s: Snap, q: nat, v: nat)
    requires v in s.hdr && q <= |s.pages|
    ensures var s' := VisitSnap(s, q, v);
            |s'.pages| == |s.pages| && forall i :: 0 <= i < |s.pages| ==> s'.pages[i].inUse == s.pages[i].inUse
  {
  }

  lemma OnlyPage(s: Snap, q: nat, v: nat, i: nat)
    requires Sound(s) && Holds(s, q, v) && i < |s.pages| && i != q
    ensures v !in s.views[i].occ
  {
    hide TableOk, LayoutOk, PoolsOk;
    if v in s.views[i].occ {
      assert v in PageObjs(s.views);
      OnePage(s, i, q, v);
    }
  }

  /** On the abstract heap the visit marks the object and nothing else. */
  lemma VisitAbs(s: Snap, q: nat, v: nat)
    requires Sound(s) && v in Objs(s) && q <= |s.pages| && !HasMark(Bits(s.hdr[v])) && Bits(s.hdr[v]) < 4
    ensures Sound(VisitSnap(s, q, v)) && Abs(VisitSnap(s, q, v)) == Visit(Abs(s), v, false)
  {
    hide Sound, Bits, WithBits, Objs, MarkFlags;
    SoundKeys(s);
    VisitSound(s, q, v);
    var b, s' := Bits(s.hdr[v]), VisitSnap(s, q, v);
    SoundKeys(s');
    RemarkAbs(s, v, b + MARKED);
    var s1 := s.(hdr := SetBits(s.hdr, v, b + MARKED));
    assert Objs(s1) == Objs(s) by { ObjsIgnore(s, s1); }
    assert Abs(s') == Abs(s1);
  }

  lemma SoundKeys(s: Snap)
    requires Sound(s)
    ensures Objs(s) <= s.hdr.Keys && Objs(s) <= s.body.Keys
  {
  }

  // --- the phase as a whole ----------------------------------------------------------------------------

  /** Marking of the abstract heap `h` has got as far as the snapshot `s`. */
  ghost predicate MarkState(h: Heap, keep: set<nat>, roots: seq<nat>, s: Snap, pending: seq<nat>, work: seq<nat>) {
    Marking(s, pending) && MarkInv(h, keep, roots, Abs(s), pending, work) && Inv(h, keep)
  }

  lemma StateStart(s: Snap, keep: set<nat>, roots: seq<nat>)
    requires Valid(s) && Inv(Abs(s), keep) && forall r :: r in roots && r != 0 ==> r in keep
    ensures MarkState(Abs(s), keep, roots, s.(remembered := []), s.remembered, roots)
  {
    hide Valid, Inv, Bits, RefsOf, Marking, MarkInv;
    ValidKeys(s);
    StartMarking(s, keep);
    MarkStart(Abs(s), keep, roots);
  }

  lemma RememberMarking(s: Snap, pending: seq<nat>, r: seq<nat>)
    requires Marking(s, pending)
    ensures Marking(s.(remembered := r), pending) && Abs(s.(remembered := r)) == Abs(s).(remset := r)
  {
    hide TableOk, LayoutOk, PoolsOk, MarkFlags, Bits;
    var s' := s.(remembered := r);
    ObjsIgnore(s, s');
    forall i | 0 <= i < |s'.pages| && s'.pages[i].inUse ensures PageMarking(s', i, pending) {
      assert PageMarking(s, i, pending);
    }
  }

  /** A kept object is allocated, and so is everything it refers to. */
  lemma KeptInMark(h: Heap, keep: set<nat>, roots: seq<nat>, s: Snap, pending: seq<nat>, work: seq<nat>, o: nat)
    requires MarkState(h, keep, roots, s, pending, work) && o in keep
    ensures o in Objs(s) && o in s.hdr && o in s.body && o != 0
    ensures forall c :: c in RefsOf(s.hdr, s.body, o) && c != 0 ==> c in keep && c in Objs(s) && c in s.hdr
    ensures o in Abs(s).refs && Abs(s).refs[o] == RefsOf(s.hdr, s.body, o) && Abs(s).bits[o] == Bits(s.hdr[o]) && Bits(s.hdr[o]) < 4
    ensures forall x: nat :: x in Objs(s) ==> x in Abs(s).bits && x in s.hdr && Abs(s).bits[x] == Bits(s.hdr[x])
  {
    hide Sound, RefsOf, Bits, AllFound, AllReached, RememberedSoFar, PageMarking, MarksKept, OldMarkedGuarded, QueueExact, Objs;
    SoundKeys(s);
    WithBitsSame(s.hdr[o]);
  }

  /** A pending object is kept and queued. */
  lemma PendingIsQueued(h: Heap, keep: set<nat>, roots: seq<nat>, s: Snap, pending: seq<nat>, work: seq<nat>)
    requires MarkState(h, keep, roots, s, pending, work) && pending != []
    ensures pending[0] in keep && pending[0] in Objs(s) && pending[0] in s.hdr && Bits(s.hdr[pending[0]]) == MARKED
  {
    hide Sound, RefsOf, Bits, AllFound, AllReached, RememberedSoFar, PageMarking, OldMarkedGuarded, Objs;
    SoundKeys(s);
    assert pending[0] in pending && pending[0] in h.remset;
    assert pending[0] in keep;
    assert BitsSoFar(h, Abs(s), pending, pending[0]);
  }

  lemma WorkIsKept(h: Heap, keep: set<nat>, roots: seq<nat>, s: Snap, pending: seq<nat>, work: seq<nat>, v: nat)
    requires MarkState(h, keep, roots, s, pending, work) && v in work && v != 0
    ensures v in keep
  {
    hide Sound, Inv, PageMarking;
  }

  /** Some reference in `refs` is to an object without the old bit. */
  ghost predicate YoungAmong(hdr: map<nat, nat>, refs: seq<nat>) {
    exists c :: c in refs && c != 0 && c in hdr && !IsOld(Bits(hdr[c]))
  }

  lemma StateRestore(h: Heap, keep: set<nat>, roots: seq<nat>, s: Snap, pending: seq<nat>, work: seq<nat>, again: bool)
    requires MarkState(h, keep, roots, s, pending, work) && pending != []
    requires pending[0] in s.hdr && pending[0] in s.body
    requires again <==> YoungAmong(SetBits(s.hdr, pending[0], OLD_MARKED), RefsOf(s.hdr, s.body, pending[0]))
    ensures var p := pending[0];
            MarkState(h, keep, roots,
                      s.(hdr := SetBits(s.hdr, p, OLD_MARKED), remembered := if again then s.remembered + [p] else s.remembered),
                      pending[1..], work + RefsOf(s.hdr, s.body, p))
  {
    hide Sound, Inv, Bits, WithBits, TypeOf, MarkInv, Marking, RefsOf, Objs;
    var p := pending[0];
    MarkingIsSound(s, pending);
    SoundKeys(s);
    PendingIsQueued(h, keep, roots, s, pending, work);
    KeptInMark(h, keep, roots, s, pending, work, p);
    var s1 := s.(hdr := SetBits(s.hdr, p, OLD_MARKED));
    RestoreMarking(s, pending);
    RemarkAbs(s, p, OLD_MARKED);
    YoungIsYoung(s, s1, p, OLD_MARKED);
    MarkRestore(h, keep, roots, Abs(s), pending, work, again);
    var r := if again then s.remembered + [p] else s.remembered;
    RememberMarking(s1, pending[1..], r);
    MarkingIsSound(s1.(remembered := r), pending[1..]);
    SoundKeys(s1.(remembered := r));
    assert Abs(s1.(remembered := r)) == Restore(Abs(s), p, again);
  }

  lemma MarkingIsSound(s: Snap, pending: seq<nat>)
    requires Marking(s, pending)
    ensures Sound(s)
  {
  }

  /** The scan for young references sees what the model sees. */
  lemma YoungIsYoung(s: Snap, s1: Snap, o: nat, b: nat)
    requires Sound(s) && o in Objs(s) && o in s.hdr && o in s.body && b < 4
    requires s1 == s.(hdr := s1.hdr) && s1.hdr == SetBits(s.hdr, o, b)
    requires forall c :: c in RefsOf(s.hdr, s.body, o) && c != 0 ==> c in Objs(s)
    ensures YoungAmong(s1.hdr, RefsOf(s.hdr, s.body, o)) <==> HasYoungRef(Abs(s).(bits := Abs(s).bits[o := b]), o)
  {
    hide Sound, Bits, WithBits, TypeOf, RefsOf, Objs;
    SoundKeys(s);
    WithBitsBits(s.hdr[o], b);
    var refs, m := RefsOf(s.hdr, s.body, o), Abs(s).(bits := Abs(s).bits[o := b]);
    forall c | c in refs && c != 0 ensures c in m.bits && c in s1.hdr && m.bits[c] == Bits(s1.hdr[c]) {}
  }

  lemma StateSkip(h: Heap, keep: set<nat>, roots: seq<nat>, s: Snap, work: seq<nat>)
    requires MarkState(h, keep, roots, s, [], work) && work != []
    requires var v := work[|work| - 1]; v == 0 || (v in Objs(s) && v in s.hdr && HasMark(Bits(s.hdr[v])))
    ensures MarkState(h, keep, roots, s, [], work[..|work| - 1])
  {
    hide Sound, Inv, Bits, MarkInv, Marking, Objs, RefsOf;
    MarkingIsSound(s, []);
    SoundKeys(s);
    MarkSkip(h, keep, roots, Abs(s), work);
  }

  lemma StateVisit(h: Heap, keep: set<nat>, roots: seq<nat>, s: Snap, work: seq<nat>, q: nat, again: bool)
    requires MarkState(h, keep, roots, s, [], work) && work != [] && |s.views| == |s.pages|
    requires var v := work[|work| - 1];
             && v != 0 && v in Objs(s) && v in s.hdr && v in s.body && !HasMark(Bits(s.hdr[v])) && Holds(s, q, v)
             && (again <==> IsOld(Bits(s.hdr[v])) && YoungAmong(SetBits(s.hdr, v, Bits(s.hdr[v]) + MARKED), RefsOf(s.hdr, s.body, v)))
    ensures var v := work[|work| - 1];
            MarkState(h, keep, roots, VisitSnap(s, q, v).(remembered := if again then s.remembered + [v] else s.remembered),
                      [], work[..|work| - 1] + RefsOf(s.hdr, s.body, v))
  {
    hide Sound, Inv, Bits, WithBits, TypeOf, MarkInv, Marking, RefsOf, Objs, VisitSnap, YoungAmong, HasYoungRef;
    var v, b := work[|work| - 1], Bits(s.hdr[work[|work| - 1]]);
    MarkingIsSound(s, []);
    SoundKeys(s);
    WorkIsKept(h, keep, roots, s, [], work, v);
    KeptInMark(h, keep, roots, s, [], work, v);
    YoungIsYoung(s, s.(hdr := SetBits(s.hdr, v, b + MARKED)), v, b + MARKED);
    VisitMarking(s, q, v);
    VisitAbs(s, q, v);
    MarkVisit(h, keep, roots, Abs(s), work, again);
    var s1 := VisitSnap(s, q, v);
    var r := if again then s.remembered + [v] else s.remembered;
    RememberMarking(s1, [], r);
    MarkingIsSound(s1.(remembered := r), []);
    SoundKeys(s1.(remembered := r));
    assert Abs(s1.(remembered := r)) == Visit(Abs(s), v, again);
  }

  lemma StateDone(h: Heap, keep: set<nat>, roots: seq<nat>, s: Snap)
    requires MarkState(h, keep, roots, s, [], [])
    ensures Sound(s) && MarkPhase(h, roots, Abs(s)) && Marking(s, [])
  {
    hide Sound, Inv, MarkInv, MarkPhase, Abs;
    MarkingIsSound(s, []);
    MarkDone(h, keep, roots, Abs(s));
  }

  // --- termination -------------------------------------------------------------------------------------

  ghost function Unmarked(s: Snap): set<nat>
    requires Objs(s) <= s.hdr.Keys
  {
    set o | o in Objs(s) && !HasMark(Bits(s.hdr[o]))
  }

  lemma VisitShrinks(s: Snap, q: nat, v: nat, r: seq<nat>)
    requires Sound(s) && v in Objs(s) && q <= |s.pages| && !HasMark(Bits(s.hdr[v])) && Bits(s.hdr[v]) < 4
    ensures var s' := VisitSnap(s, q, v).(remembered := r);
            Objs(s') <= s'.hdr.Keys && Unmarked(s') == Unmarked(s) - {v} && |Unmarked(s')| < |Unmarked(s)|
  {
    hide Sound, Bits, WithBits;
    SoundKeys(s);
    var s' := VisitSnap(s, q, v).(remembered := r);
    ObjsIgnore(s, s');
    WithBitsBits(s.hdr[v], Bits(s.hdr[v]) + MARKED);
  }
}
