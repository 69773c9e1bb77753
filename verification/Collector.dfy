/** The collector: a pooled heap that its methods update in place.  Each method is proved to keep the
    heap consistent and to take the abstract heap one step of the model. */
module Collectors {
  import opened Wrappers
  import opened GcModel
  import opened GcPages
  import opened SizeClasses
  import opened GcState
  import opened GcOps
  import opened GcSpace
  import opened GcMarking
  import opened GcSweep
  import opened GcBigs
  import opened GcExtents

  const REGION_SIZE: nat := 0x100000

  function AlignUp(n: nat): nat { (n + 7) / 8 * 8 }

  lemma AlignedUp(n: nat)
    ensures n <= AlignUp(n) < n + 8 && AlignUp(n) % 8 == 0
  {
  }

  predicate NoPool(pools: seq<Pool>, osize: nat) {
    forall p :: 0 <= p < |pools| ==> pools[p].osize != osize
  }

  /** No page of the class has room, none is released and none can be carved. */
  ghost predicate NoPage(s: Snap, osize: nat) {
    && (forall q :: 0 <= q < |s.pages| && s.pages[q].inUse && s.pages[q].osize == osize ==> s.pages[q].nfree == 0)
    && s.freePages == [] && REGION_SIZE < s.top + PAGE_SIZE
  }

  /** No free block is large enough and none can be carved. */
  ghost predicate NoBlock(s: Snap, total: nat) {
    && (forall i :: 0 <= i < |s.freeBigs| ==> s.freeBigs[i].1 < AlignUp(total))
    && REGION_SIZE < s.top + AlignUp(total)
  }

  /** No cell, page or block is left for an object of `total` bytes. */
  ghost predicate NoRoom(s: Snap, total: nat) {
    match ClassOf(total)
    case Some(osize) => NoPage(s, osize)
    case None => NoBlock(s, total)
  }

  /** The heap is consistent, inside the region, and meets the collector's invariant. */
  ghost predicate OkSnap(s: Snap, keep: set<nat>) {
    Valid(s) && s.top <= REGION_SIZE && Inv(Abs(s), keep)
  }

  class Collector {
    /** Header words by offset, and the reference fields of each object. */
    var hdr: map<nat, nat>
    var body: map<nat, seq<nat>>

    var pages: seq<Page>
    var pools: seq<Pool>
    var freePages: seq<nat>
    var remembered: seq<nat>
    var prevFull: bool
    var live: nat
    var bigsYoung: seq<Block>
    var bigsOld: seq<Block>
    var freeBigs: seq<Block>
    var top: nat

    ghost var views: seq<View>
    /** Allocated objects, closed under references, among them all that have the mark bit. */
    ghost var keep: set<nat>

    ghost function Snapshot(): Snap
      reads this
    {
      Snap(hdr, body, pages, views, pools, freePages, remembered, prevFull, live, bigsYoung, bigsOld, freeBigs, top)
    }

    ghost predicate Ok()
      reads this
    {
      OkSnap(Snapshot(), keep)
    }

    /** The abstract heap. */
    ghost function Objects(): Heap
      requires Ok()
      reads this
    {
      Abs(Snapshot())
    }

    constructor ()
      ensures Ok() && Objects() == Heap(map[], map[], [], false) && keep == {}
    {
      hdr, body, pages, pools, freePages := map[], map[], [], [], [];
      remembered, prevFull, live := [], false, 0;
      bigsYoung, bigsOld, freeBigs, top := [], [], [], 8;
      views, keep := [], {};
    }

    // --- the mutator ---------------------------------------------------------------------------

    /** Clear the parent's old bit, which marks it as queued, and remember it. */
    method QueueRoot(parent: nat)
      requires parent in hdr
      modifies this`hdr, this`remembered
      ensures hdr == SetBits(old(hdr), parent, MARKED) && remembered == old(remembered) + [parent]
    {
      hdr := SetBits(hdr, parent, MARKED);
      remembered := remembered + [parent];
    }

    /** Store a reference, through the barrier. */
    method SetField(parent: nat, k: nat, child: nat)
      requires Ok() && parent in keep && k + 1 < |Objects().refs[parent]| && (child != 0 ==> child in keep)
      modifies this
      ensures Ok() && keep == old(keep)
      ensures Objects() == SetRef(old(Objects()), parent, k + 1, child)
      ensures forall o :: o in Objects().refs ==> Extent(Snapshot(), o) == old(Extent(Snapshot(), o))
    {
      hide OkSnap, Bits, WithBits, Abs, SetRef, Extent, KeepsPlaces;
      StoreOk(Snapshot(), keep, parent, k, child);
      HeldIsAllocated(Snapshot(), keep);
      if child != 0 && Bits(hdr[parent]) == OLD_MARKED && !HasMark(Bits(hdr[child])) {
        QueueRoot(parent);
      }
      var fields: seq<nat> := body[parent];
      body := body[parent := fields[k := child]];
      assert Snapshot() == StoreSnap(old(Snapshot()), parent, k, child);
      StoreKeepsPlaces(old(Snapshot()), Snapshot());
      PlacesKept(old(Snapshot()), keep, Snapshot(), keep);
      SameObjects(old(Objects()), parent, k + 1, child);
    }

    // --- allocation ----------------------------------------------------------------------------

    /** The pool of a size class, made on first use. */
    method PoolFor(osize: nat) returns (p: nat)
      modifies this`pools
      ensures p < |pools| && pools[p].osize == osize
      ensures if NoPool(old(pools), osize) then pools == old(pools) + [Pool(osize, [])] else pools == old(pools)
    {
      p := 0;
      while p < |pools|
        invariant p <= |pools| && forall i :: 0 <= i < p ==> pools[i].osize != osize
      {
        if pools[p].osize == osize {
          return;
        }
        p := p + 1;
      }
      pools := pools + [Pool(osize, [])];
    }

    /** A page of the pool's queue with room; exhausted pages leave the queue on the way. */
    method QueuedPage(p: nat) returns (r: Option<nat>)
      requires Ok() && p < |pools|
      modifies this`pools
      ensures Ok() && Objects() == old(Objects()) && p < |pools| && pools[p].osize == old(pools[p].osize)
      ensures r.Some? ==> CanTake(Snapshot(), r.value) && InClass(pages, r.value, pools[p].osize)
      ensures r.None? ==> forall q :: 0 <= q < |pages| && pages[q].inUse && pages[q].osize == pools[p].osize ==> pages[q].nfree == 0
    {
      hide OkSnap, Abs, PoolsOk, CanTake;
      while pools[p].pageQ != []
        invariant p < |pools| && pools[p].osize == old(pools[p].osize) && Ok() && Objects() == old(Objects())
        decreases |pools[p].pageQ|
      {
        var q := pools[p].pageQ[|pools[p].pageQ| - 1];
        ghost var s := Snapshot();
        PoolsOfOk(s, keep);
        QueuedIsInClass(pages, pools, freePages, p);
        if pages[q].nfree > 0 {
          RoomCanTake(s, keep, q);
          return Some(q);
        }
        PopQueue(pages, pools, freePages, p);
        pools := pools[p := pools[p].(pageQ := pools[p].pageQ[..|pools[p].pageQ| - 1])];
        QueuesOk(s, keep, pools);
      }
      PoolsOfOk(Snapshot(), keep);
      forall q: nat | q < |pages| && pages[q].inUse && pages[q].osize == pools[p].osize ensures pages[q].nfree == 0 {
        EmptyQueueIsFull(pages, pools, freePages, p, q);
      }
      r := None;
    }

    /** A released page joins the pool's class. */
    method RecycledPage(p: nat) returns (q: nat)
      requires Ok() && p < |pools| && GoodSize(pools[p].osize) && freePages != []
      modifies this`pools, this`pages, this`freePages, this`views
      ensures Ok() && Objects() == old(Objects()) && CanTake(Snapshot(), q)
      ensures InClass(pages, q, old(pools[p].osize)) && KeepsPlaces(old(Snapshot()), Snapshot())
    {
      hide OkSnap, Abs, CanTake, GoodSize;
      GoodIsPositive(pools[p].osize);
      ghost var s := Snapshot();
      RecycleOk(s, keep, p);
      RecycledHoldsNothing(s, keep);
      q := freePages[|freePages| - 1];
      pages := pages[q := ResetPage(pages[q].(osize := pools[p].osize))];
      freePages := freePages[..|freePages| - 1];
      pools := pools[p := pools[p].(pageQ := pools[p].pageQ + [q])];
      views := views[q := View({}, [], 0)];
      assert Snapshot() == RecyclePage(s, p);
    }

    /** A fresh page for the pool's class, carved from the region. */
    method CarvedPage(p: nat) returns (q: nat)
      requires Ok() && p < |pools| && GoodSize(pools[p].osize) && top + PAGE_SIZE <= REGION_SIZE
      modifies this`pools, this`pages, this`top, this`views
      ensures Ok() && Objects() == old(Objects()) && CanTake(Snapshot(), q)
      ensures InClass(pages, q, old(pools[p].osize)) && KeepsPlaces(old(Snapshot()), Snapshot())
    {
      hide OkSnap, Abs, CanTake, GoodSize;
      GoodIsPositive(pools[p].osize);
      ghost var s := Snapshot();
      FreshOk(s, keep, p);
      q := |pages|;
      pages := pages + [ResetPage(Page(top, pools[p].osize, 0, 0, 0, false, false, 0, 0, true, top))];
      top := top + PAGE_SIZE;
      pools := pools[p := pools[p].(pageQ := pools[p].pageQ + [q])];
      views := views + [View({}, [], 0)];
      assert Snapshot() == FreshPage(s, p);
    }

    /** A page of the pool's class with room: queued, else released, else fresh; none only if there is
        none to be had. */
    method FindPage(p: nat) returns (r: Option<nat>)
      requires Ok() && p < |pools| && GoodSize(pools[p].osize)
      modifies this`pools, this`pages, this`freePages, this`top, this`views
      ensures Ok() && Objects() == old(Objects())
      ensures r.Some? ==> CanTake(Snapshot(), r.value) && InClass(pages, r.value, old(pools[p].osize))
      ensures r.None? <==> old(NoPage(Snapshot(), pools[p].osize))
      ensures KeepsPlaces(old(Snapshot()), Snapshot())
    {
      hide OkSnap, Abs, GoodSize, CanTake;
      r := QueuedPage(p);
      if r == None {
        if freePages != [] {
          var q := RecycledPage(p);
          r := Some(q);
        } else if top + PAGE_SIZE <= REGION_SIZE {
          var q := CarvedPage(p);
          r := Some(q);
        }
      } else {
        HasRoom(Snapshot(), r.value);
      }
    }

    /** Take a cell of page `q` for an object with this header and these fields. */
    method TakeOnPage(q: nat, w: nat, fields: seq<nat>) returns (o: nat)
      requires q < |pages| == |views| && 0 < pages[q].nfree
      requires pages[q].freelist != 0 ==> pages[q].freelist in hdr && views[q].free != []
      modifies this`hdr, this`body, this`pages, this`live, this`views
      ensures o == NextCell(old(pages[q])) && Snapshot() == AllocOnPage(old(Snapshot()), q, w, fields)
    {
      hide NextCell, TakeCell, TakeView;
      var pg := pages[q];
      o := NextCell(pg);
      pages := pages[q := TakeCell(hdr, pg)];
      live := live + 1;
      hdr, body := hdr[o := w], body[o := fields];
      views := views[q := TakeView(pg, views[q])];
    }

    /** Room for a big object: the first free block that is large enough, else fresh space; null if neither. */
    method FirstFit(aligned: nat) returns (o: nat)
      requires Sound(Snapshot()) && top <= REGION_SIZE && 0 < aligned && aligned % 8 == 0
      modifies this`freeBigs, this`top
      ensures o == 0 <==> (forall i :: 0 <= i < old(|freeBigs|) ==> old(freeBigs)[i].1 < aligned) && REGION_SIZE < old(top) + aligned
      ensures o == 0 ==> freeBigs == old(freeBigs) && top == old(top)
      ensures o != 0 ==> Room(old(Snapshot()), o, aligned, freeBigs, top) && top <= REGION_SIZE
    {
      hide Sound, Room, SwapRemove;
      var i := 0;
      while i < |freeBigs| && freeBigs[i].1 < aligned
        invariant i <= |freeBigs| && forall j :: 0 <= j < i ==> freeBigs[j].1 < aligned
      {
        i := i + 1;
      }
      if i < |freeBigs| {
        RoomInFreeBlock(Snapshot(), i, aligned);
        o := freeBigs[i].0;
        freeBigs := SwapRemove(freeBigs, i);
        RoomIsNew(old(Snapshot()), o, aligned, freeBigs, top);
      } else if top + aligned <= REGION_SIZE {
        RoomInRegion(Snapshot(), aligned);
        o := top;
        top := top + aligned;
        RoomIsNew(old(Snapshot()), o, aligned, freeBigs, top);
      } else {
        o := 0;
      }
    }

    method RecordBig(o: nat, aligned: nat, w: nat, fields: seq<nat>)
      modifies this`hdr, this`body, this`bigsYoung, this`live
      ensures Snapshot() == AllocBig(old(Snapshot()), o, aligned, freeBigs, top, w, fields)
    {
      bigsYoung := bigsYoung + [(o, aligned)];
      live := live + 1;
      hdr, body := hdr[o := w], body[o := fields];
    }

    method BigAlloc(total: nat, w: nat, fields: seq<nat>) returns (o: nat)
      requires Ok() && 0 < total && Bits(w) == CLEAN && MayRefer(keep, TypeOf(w), fields)
      modifies this
      ensures Ok() && (o == 0 <==> old(NoBlock(Snapshot(), total)))
      ensures o == 0 ==> Objects() == old(Objects()) && keep == old(keep)
      ensures o != 0 ==> o !in old(Objects()).refs && keep == old(keep) + {o}
                         && Objects() == NewObject(old(Objects()), o, [TypeOf(w)] + fields)
      ensures KeepsPlaces(old(Snapshot()), Snapshot()) && (o != 0 ==> IsBig(Snapshot(), (o, AlignUp(total))))
    {
      hide OkSnap, Abs, Bits, TypeOf, NewObject, MayRefer, AlignUp, Room, Sound;
      AlignedUp(total);
      OkIsSound(Snapshot(), keep);
      var aligned := AlignUp(total);
      o := FirstFit(aligned);
      if o != 0 {
        NewBlockOk(old(Snapshot()), keep, o, aligned, freeBigs, top, w, fields);
        RecordBig(o, aligned, w, fields);
        keep := keep + {o};
      }
    }

    /** A new object of `size` bytes, or null when there is no room for it.  The header is written here;
        the caller fills in the fields before the next collection. */
    method Alloc(typ: nat, size: nat, fields: seq<nat>) returns (o: nat)
      requires Ok() && MayRefer(keep, TypeOf(typ), fields)
      modifies this
      ensures Ok() && (o == 0 <==> old(NoRoom(Snapshot(), 8 + AlignUp(size))))
      ensures o == 0 ==> Objects() == old(Objects()) && keep == old(keep)
      ensures o != 0 ==> o !in old(Objects()).refs && keep == old(keep) + {o}
                         && Objects() == NewObject(old(Objects()), o, [TypeOf(typ)] + fields)
      ensures o != 0 ==> 8 + size <= 8 + AlignUp(size) <= Extent(Snapshot(), o) && Fits(8 + AlignUp(size), Extent(Snapshot(), o))
      ensures forall p :: p in old(Objects()).refs ==> Extent(Snapshot(), p) == old(Extent(Snapshot(), p))
    {
      hide OkSnap, Abs, Bits, NewObject, MayRefer, NoPage, NoBlock, GoodSize, CanTake, Extent, KeepsPlaces, IsBig, Fits;
      var total, w := 8 + AlignUp(size), TypeOf(typ);
      AlignedUp(size);
      TypeWord(typ);
      var class_ := SizeClass(total);
      if class_ == None {
        o := BigAlloc(total, w, fields);
        PlacesKept(old(Snapshot()), old(keep), Snapshot(), keep);
        if o != 0 { BigFits(Snapshot(), keep, o, total); }
        return;
      }
      ClassIsGood(class_.value);
      ghost var s := Snapshot();
      var p := PoolFor(class_.value);
      PoolForOk(s, keep, class_.value, pools);
      SameRoom(s, Snapshot(), class_.value);
      PoolsKeepPlaces(s, pools);
      ghost var s1 := Snapshot();
      var r := FindPage(p);
      ghost var s2 := Snapshot();
      PlacesTwice(s, s1, s2);
      if r == None {
        PlacesKept(s, keep, s2, keep);
        return 0;
      }
      NewCellOk(Snapshot(), keep, r.value, w, fields);
      o := TakeOnPage(r.value, w, fields);
      keep := keep + {o};
      TakingKeepsPlaces(s2, r.value, w, fields);
      PlacesTwice(s, s2, Snapshot());
      PlacesKept(s, old(keep), Snapshot(), keep);
      CellFitsObject(s2, keep, r.value, w, fields, total);
    }

    // --- marking ---------------------------------------------------------------------------------

    /** Whether any reference is to an object without the old bit. */
    method AnyYoung(refs: seq<nat>) returns (young: bool)
      requires forall c :: c in refs && c != 0 ==> c in hdr
      ensures young <==> YoungAmong(hdr, refs)
    {
      hide Bits;
      young := false;
      for i := 0 to |refs|
        invariant young <==> exists j :: 0 <= j < i && refs[j] != 0 && refs[j] in hdr && !IsOld(Bits(hdr[refs[j]]))
      {
        var c := refs[i];
        assert c in refs;
        if c != 0 && !IsOld(Bits(hdr[c])) {
          young := true;
        }
      }
      YoungAt(hdr, refs);
    }

    /** Set the mark bit and note it on the object's page, if it is on one. */
    method MarkObject(v: nat) returns (wasOld: bool, ghost q: nat)
      requires Sound(Snapshot()) && v in Objs(Snapshot()) && v in hdr
      modifies this`hdr, this`pages
      ensures wasOld == IsOld(Bits(old(hdr)[v])) && |views| == |old(pages)| && q <= |old(pages)|
      ensures Holds(old(Snapshot()), q, v) && Snapshot() == VisitSnap(old(Snapshot()), q, v) && SameGeometry(old(pages), pages)
    {
      hide Sound, Bits, WithBits, Holds, Objs;
      SoundSizes(Snapshot());
      var bits := Bits(hdr[v]);
      wasOld := IsOld(bits);
      SoundSorted(Snapshot());
      var r := PageOf(pages, v);
      q := if r.Some? then r.value else |pages|;
      FoundHolds(Snapshot(), v, q);
      hdr := SetBits(hdr, v, bits + MARKED);
      if r.Some? {
        pages := pages[r.value := NoteMark(pages[r.value], wasOld)];
      }
    }

    /** Restore the remembered objects, then mark what the work list reaches, rebuilding the remembered set. */
    method Mark(roots: seq<nat>)
      requires Ok() && forall r :: r in roots && r != 0 ==> r in keep
      modifies this`hdr, this`pages, this`remembered
      ensures Marking(Snapshot(), []) && Sound(Snapshot()) && MarkPhase(old(Objects()), roots, Abs(Snapshot()))
      ensures SameGeometry(old(pages), pages)
    {
      hide OkSnap, Abs, MarkState, MarkPhase, Marking, Sound;
      ghost var h := Objects();
      var work, remset := roots, remembered;
      StateStartOk(Snapshot(), keep, roots);
      remembered := [];
      for i := 0 to |remset|
        invariant MarkState(h, keep, roots, Snapshot(), remset[i..], work) && pages == old(pages)
      {
        work := RestoreObject(h, roots, remset[i..], work);
        assert remset[i..][1..] == remset[i + 1..];
      }
      assert remset[|remset|..] == [];
      MarkRest(h, roots, work);
      StateDone(h, keep, roots, Snapshot());
    }

    /** A remembered object is old-marked again and traced, and stays remembered if it refers to a young one. */
    method RestoreObject(ghost h: Heap, ghost roots: seq<nat>, pending: seq<nat>, work: seq<nat>) returns (work': seq<nat>)
      requires pending != [] && MarkState(h, keep, roots, Snapshot(), pending, work)
      modifies this`hdr, this`remembered
      ensures MarkState(h, keep, roots, Snapshot(), pending[1..], work')
    {
      hide MarkState, Bits, WithBits, TypeOf, Abs, Objs;
      ghost var s := Snapshot();
      var p := pending[0];
      PendingIsQueued(h, keep, roots, s, pending, work);
      KeptInMark(h, keep, roots, s, pending, work, p);
      var refs := [TypeOf(hdr[p])] + body[p];
      assert refs == RefsOf(hdr, body, p);
      hdr := SetBits(hdr, p, OLD_MARKED);
      work' := work + refs;
      var again := AnyYoung(refs);
      if again {
        remembered := remembered + [p];
      }
      StateRestore(h, keep, roots, s, pending, work, again);
    }

    /** Work through the list: skip null and marked objects, mark and trace the others. */
    method MarkRest(ghost h: Heap, ghost roots: seq<nat>, todo: seq<nat>)
      requires MarkState(h, keep, roots, Snapshot(), [], todo)
      modifies this`hdr, this`pages, this`remembered
      ensures MarkState(h, keep, roots, Snapshot(), [], []) && SameGeometry(old(pages), pages)
    {
      hide MarkState, Bits, WithBits, TypeOf, Abs, Objs, Unmarked;
      var work := todo;
      StateKeys(h, keep, roots, Snapshot(), work);
      while work != []
        invariant MarkState(h, keep, roots, Snapshot(), [], work) && Objs(Snapshot()) <= hdr.Keys && SameGeometry(old(pages), pages)
        decreases |Unmarked(Snapshot())|, |work|
      {
        var v := work[|work| - 1];
        assert v in work;
        if v == 0 {
          StateSkip(h, keep, roots, Snapshot(), work);
          work := work[..|work| - 1];
        } else {
          WorkIsKept(h, keep, roots, Snapshot(), [], work, v);
          KeptInMark(h, keep, roots, Snapshot(), [], work, v);
          if HasMark(Bits(hdr[v])) {
            StateSkip(h, keep, roots, Snapshot(), work);
            work := work[..|work| - 1];
          } else {
            work := VisitObject(h, roots, work);
          }
        }
      }
    }

    /** Mark and trace the last work item; remember it if it is old and refers to a young object. */
    method VisitObject(ghost h: Heap, ghost roots: seq<nat>, work: seq<nat>) returns (work': seq<nat>)
      requires work != [] && MarkState(h, keep, roots, Snapshot(), [], work) && Objs(Snapshot()) <= hdr.Keys
      requires var v := work[|work| - 1]; v != 0 && v in keep && v in hdr && !HasMark(Bits(hdr[v]))
      modifies this`hdr, this`pages, this`remembered
      ensures MarkState(h, keep, roots, Snapshot(), [], work') && Objs(Snapshot()) <= hdr.Keys
      ensures |Unmarked(Snapshot())| < old(|Unmarked(Snapshot())|) && SameGeometry(old(pages), pages)
    {
      hide MarkState, Bits, WithBits, TypeOf, Abs, Objs, Unmarked, Sound, VisitSnap, Holds, YoungAmong;
      ghost var s := Snapshot();
      var v := work[|work| - 1];
      KeptInMark(h, keep, roots, s, [], work, v);
      StateSound(h, keep, roots, s, [], work);
      var refs := [TypeOf(hdr[v])] + body[v];
      assert refs == RefsOf(hdr, body, v);
      var wasOld, q := MarkObject(v);
      VisitHeaders(s, q, v);
      var again := false;
      if wasOld {
        again := AnyYoung(refs);
      }
      if again {
        remembered := remembered + [v];
      }
      work' := work[..|work| - 1] + refs;
      StateVisit(h, keep, roots, s, work, q, again);
      VisitShrinks(s, q, v, remembered);
    }

    // --- sweeping ---------------------------------------------------------------------------------

    /** Drop page `n` from the queue of its class. */
    method Dequeue(osize: nat, n: nat)
      requires forall p, r :: 0 <= p < r < |pools| ==> pools[p].osize != pools[r].osize
      modifies this`pools
      ensures |pools| == |old(pools)| && forall p :: 0 <= p < |pools| ==>
                pools[p] == if old(pools)[p].osize == osize then old(pools)[p].(pageQ := Without(old(pools)[p].pageQ, n)) else old(pools)[p]
    {
      hide Without;
      var p := 0;
      while p < |pools| && pools[p].osize != osize
        invariant p <= |pools| && forall i :: 0 <= i < p ==> pools[i].osize != osize
      {
        p := p + 1;
      }
      if p < |pools| {
        pools := pools[p := pools[p].(pageQ := Without(pools[p].pageQ, n))];
      }
    }

    /** Queue page `n` for its class unless it is queued already. */
    method Enqueue(osize: nat, n: nat, ghost table: seq<Page>)
      requires PoolsOk(table, pools, freePages) && InClass(table, n, osize)
      modifies this`pools
      ensures PoolsOk(table, pools, freePages) && Queued(pools, n, osize)
    {
      hide PoolsOk;
      ghost var before := pools;
      var p := PoolFor(osize);
      if NoPool(before, osize) { NewPool(table, before, freePages, osize); }
      if n !in pools[p].pageQ {
        PushQueue(table, pools, freePages, p, n);
        pools := pools[p := pools[p].(pageQ := pools[p].pageQ + [n])];
      }
      assert pools[p].osize == osize && n in pools[p].pageQ;
    }

    /** Return a page on which nothing was marked. */
    method ReleasePage(n: nat)
      requires n < |pages| == |views| && pages[n].inUse && PoolsOk(pages, pools, freePages)
      modifies this`pages, this`pools, this`freePages, this`views
      ensures Snapshot() == old(Snapshot()).(pages := pages, pools := pools, freePages := freePages, views := views)
      ensures pages == old(pages)[n := old(pages[n]).(inUse := false, liveN := 0)] && views == old(views)[n := View({}, [], 0)]
      ensures PoolsOk(pages, pools, freePages)
    {
      ghost var pages0, pools0, free0 := pages, pools, freePages;
      var osize := pages[n].osize;
      pages := pages[n := pages[n].(inUse := false, liveN := 0)];
      freePages := freePages + [n];
      Dequeue(osize, n);
      views := views[n := View({}, [], 0)];
      ReleasePools(pages0, pages, pools0, pools, free0, n);
    }

    /** Rebuild a page's free list, move its survivors on, and queue it if anything was freed. */
    method WalkAndQueue(n: nat, full: bool) returns (left: nat)
      requires n < |pages| == |views| && pages[n].inUse && PageOk(hdr, pages[n], views[n]) && PoolsOk(pages, pools, freePages)
      modifies this`hdr, this`pages, this`pools, this`views
      ensures OnePageChanged(old(Snapshot()), Snapshot(), n) && pages[n].inUse && freePages == old(freePages)
      ensures PageOk(hdr, pages[n], views[n]) && PoolsOk(pages, pools, freePages)
      ensures left == |views[n].occ| && PageSwept(old(hdr), old(views[n].occ), hdr, pages[n], views[n].occ, full, prevFull)
    {
      hide PageOk, PoolsOk, PageSwept, LinkedList, Split, WalkedHeaders, Cells, MarkedCells, WalkedPage, Cap, Used, Inside;
      var pg := pages[n];
      ghost var v, pages0 := views[n], pages;
      var hdr', fl, nfree, liveN, v' := WalkPage(hdr, pg, v, full);
      WalkShape(hdr, pg, v);
      WalkedOk(hdr, hdr', pg, v, fl, v', full, prevFull, nfree, liveN);
      hdr := hdr';
      var pg' := WalkedPage(pg, fl, nfree, liveN, full);
      pages := pages[n := pg'];
      views := views[n := v'];
      left := liveN;
      if nfree > 0 {
        Enqueue(pg.osize, n, pages0);
      }
      WalkPools(pages0, pages, pools, freePages, n);
    }

    /** Sweep one page: released, skipped or walked. */
    method SweepPage(ghost m: Snap, n: nat, full: bool) returns (left: nat)
      requires Marking(m, []) && SweepInv(m, Snapshot(), n, full) && n < |pages|
      modifies this`hdr, this`pages, this`pools, this`freePages, this`views
      ensures SweepInv(m, Snapshot(), n + 1, full) && n < |views| && left == |views[n].occ| && views[..n] == old(views[..n])
    {
      hide Marking, Sound, SweptAt, InPages, PageSwept, PageOk, PoolsOk, MarkFlags, OnePageChanged;
      ghost var s := Snapshot();
      SweepFacts(m, s, n, full);
      var pg := pages[n];
      left := 0;
      if pg.inUse {
        if !pg.hasMarked {
          ReleasePage(n);
          ReleaseSwept(s.hdr, pg, s.views[n].occ, full, prevFull, pages[n]);
        } else if !full && !pg.hasYoung && (!prevFull || pg.prevNold == pg.nold) {
          left := pg.liveN;
          SkipSwept(s.hdr, pg, s.views[n].occ, prevFull);
        } else {
          left := WalkAndQueue(n, full);
        }
      }
      ChangedOnePage(s, Snapshot(), n);
      SweepNext(m, s, Snapshot(), n, full);
    }

    method SweepPages(ghost m: Snap, full: bool) returns (survivors: nat)
      requires Marking(m, []) && Snapshot() == m
      modifies this`hdr, this`pages, this`pools, this`freePages, this`views
      ensures SweepInv(m, Snapshot(), |m.pages|, full) && survivors == SumLive(views)
    {
      hide Marking, SweepInv, SumLive;
      survivors := 0;
      MarkingIsSound(m, []);
      SweepStart(m, full);
      SumNone(views);
      var npages := |pages|;
      for n := 0 to npages
        invariant SweepInv(m, Snapshot(), n, full) && n <= |views| && survivors == SumLive(views[..n])
      {
        SweepSizes(m, Snapshot(), n, full);
        var left := SweepPage(m, n, full);
        survivors := survivors + left;
        SweepSizes(m, Snapshot(), n + 1, full);
        SumSnoc(views, n);
      }
      SweepSizes(m, Snapshot(), npages, full);
      assert views[..npages] == views;
    }

    /** Young big objects: survivors become old or, once old-marked, settle; the others are freed. */
    method SweepYoungBigs(ghost m: Snap, full: bool) returns (survivors: nat)
      requires Marking(m, []) && SweepInv(m, Snapshot(), |m.pages|, full)
      modifies this`hdr, this`bigsYoung, this`bigsOld, this`freeBigs
      ensures AllIn(m.hdr, m.bigsYoung) && bigsYoung == Pick(m.hdr, m.bigsYoung, full, StaysYoung)
      ensures bigsOld == m.bigsOld + Pick(m.hdr, m.bigsYoung, full, Settles)
      ensures freeBigs == m.freeBigs + Pick(m.hdr, m.bigsYoung, full, Freed)
      ensures Aged(old(hdr), hdr, Offs(bigsYoung)) && survivors == |bigsYoung| + |bigsOld| - |m.bigsOld|
    {
      hide Marking, SweepInv, Pick, Bits, WithBits, Aged, AllIn;
      ghost var s := Snapshot();
      BigFacts(m, s, full);
      var young := bigsYoung;
      bigsYoung, survivors := [], 0;
      NothingPicked(m.hdr, young, full, s.hdr);
      for k := 0 to |young|
        invariant bigsYoung == Pick(m.hdr, young[..k], full, StaysYoung)
        invariant bigsOld == m.bigsOld + Pick(m.hdr, young[..k], full, Settles)
        invariant freeBigs == m.freeBigs + Pick(m.hdr, young[..k], full, Freed)
        invariant Aged(s.hdr, hdr, Offs(bigsYoung)) && survivors == |bigsYoung| + |bigsOld| - |m.bigsOld|
      {
        var b := young[k];
        NextBig(m, s, hdr, full, k);
        var bits := Bits(hdr[b.0]);
        if HasMark(bits) {
          if full || bits == MARKED {
            hdr := SetBits(hdr, b.0, OLD);
            bigsYoung := bigsYoung + [b];
          } else {
            bigsOld := bigsOld + [b];
          }
          survivors := survivors + 1;
        } else {
          freeBigs := freeBigs + [b];
        }
      }
      assert young[..|young|] == young;
    }

    /** On a full sweep settled big objects become old and join the young list again. */
    method MergeOldBigs() returns (merged: nat)
      requires AllIn(hdr, bigsOld) && DistinctOffs(bigsOld)
      modifies this`hdr, this`bigsYoung, this`bigsOld
      ensures bigsYoung == old(bigsYoung) + old(bigsOld) && bigsOld == [] && merged == |old(bigsOld)|
      ensures Aged(old(hdr), hdr, Offs(old(bigsOld)))
    {
      hide WithBits, Bits;
      var list := bigsOld;
      bigsOld, merged := [], 0;
      assert Offs(list[..0]) == {};
      for k := 0 to |list|
        invariant bigsYoung == old(bigsYoung) + list[..k] && bigsOld == [] && merged == k && Aged(old(hdr), hdr, Offs(list[..k]))
      {
        var b := list[k];
        NotBefore(list, k);
        AgeOne(old(hdr), hdr, Offs(list[..k]), b.0);
        hdr := SetBits(hdr, b.0, OLD);
        bigsYoung := bigsYoung + [b];
        merged := merged + 1;
        assert list[..k + 1] == list[..k] + [b];
        OffsAppend(list[..k], b);
      }
      assert list[..|list|] == list;
    }

    /** Sweep pages, then big objects. */
    method Sweep(ghost m: Snap, full: bool) returns (survivors: nat, ghost s1: Snap)
      requires Marking(m, []) && Snapshot() == m
      modifies this`hdr, this`pages, this`pools, this`freePages, this`views, this`bigsYoung, this`bigsOld, this`freeBigs, this`prevFull
      ensures AllSwept(m, s1, Snapshot().(live := survivors), full)
    {
      hide Marking, SweepInv, Pick, Aged, AllIn, DistinctOffs, SumLive;
      survivors := SweepPages(m, full);
      s1 := Snapshot();
      var settled := |bigsOld|;
      BigFacts(m, s1, full);
      var n := SweepYoungBigs(m, full);
      survivors := survivors + n;
      if full {
        FullSettlesNone(m.hdr, m.bigsYoung);
        assert bigsOld == m.bigsOld;
        OldBigFacts(m, s1, hdr, full);
        ghost var hdr1 := hdr;
        var merged := MergeOldBigs();
        survivors := survivors + merged;
        AgedTwice(s1.hdr, hdr1, hdr, Offs(Pick(m.hdr, m.bigsYoung, full, StaysYoung)), Offs(m.bigsOld));
      } else {
        survivors := survivors + settled;
      }
      prevFull := full;
      assert bigsYoung == YoungAfter(m, full) && bigsOld == OldAfter(m, full) && freeBigs == FreeAfter(m, full);
      assert Offs(Pick(m.hdr, m.bigsYoung, full, StaysYoung)) + {} == Offs(Pick(m.hdr, m.bigsYoung, full, StaysYoung));
      assert Aged(s1.hdr, hdr, AgedOffs(m, full));
    }

    /** Put the remembered objects back in the queued state. */
    method Requeue(ghost h: Heap)
      requires Valid(Snapshot()) && Abs(Snapshot()) == h && forall p :: p in remembered ==> p in h.bits && h.bits[p] == OLD_MARKED
      modifies this`hdr
      ensures Valid(Snapshot()) && Abs(Snapshot()) == Requeued(h, remembered)
    {
      hide Valid, Abs, Bits, WithBits;
      RequeueNone(h);
      for i := 0 to |remembered|
        invariant Valid(Snapshot()) && Abs(Snapshot()) == Requeued(h, remembered[..i])
      {
        RequeueStep(h, Snapshot(), remembered[..i], remembered[i]);
        hdr := SetBits(hdr, remembered[i], MARKED);
        assert remembered[..i + 1] == remembered[..i] + [remembered[i]];
      }
      assert remembered[..|remembered|] == remembered;
    }

    /** One collection.  It has the effect the model gives it, everything the roots reach may go on being
        used, and the result is the number of objects reclaimed. */
    method Collect(roots: seq<nat>, full: bool) returns (reclaimed: nat)
      requires Ok() && forall r :: r in roots && r != 0 ==> r in keep
      modifies this
      ensures Ok() && Collected(old(Objects()), roots, full, Objects())
      ensures forall o :: Reaches(old(Objects()).refs, roots, o) ==> o in keep
      ensures reclaimed + |Objects().refs| == |old(Objects()).refs|
      ensures forall o :: o in Objects().refs ==> Extent(Snapshot(), o) == old(Extent(Snapshot(), o))
    {
      hide OkSnap, Valid, Abs, Marking, AllSwept, MarkPhase, Reaches, Inv, Sound, AfterSweep, Extent, SameGeometry, Collected;
      ghost var s, h := Snapshot(), Objects();
      Mark(roots);
      ghost var m := Snapshot();
      var before := live;
      var survivors, s1 := Sweep(m, full);
      live := survivors;
      SweptOk(s, keep, m, s1, Snapshot(), roots, full);
      ghost var swept := Snapshot();
      if full {
        remembered := [];
        RememberKeepsValid(swept, []);
      } else {
        Requeue(Abs(swept));
      }
      CollectOk(s, keep, m, s1, swept, Snapshot(), roots, full);
      SurvivorsKeepExtents(s, keep, m, s1, swept, Snapshot(), roots, full);
      keep := MarkedSet(Abs(m));
      reclaimed := before - survivors;
    }
  }

  // --- extents ---------------------------------------------------------------------------------------------

  lemma RecycledHoldsNothing(s: Snap, keep: set<nat>)
    requires OkSnap(s, keep) && s.freePages != []
    ensures var q := s.freePages[|s.freePages| - 1]; q < |s.pages| == |s.views| && s.views[q].occ == {}
  {
    var q := s.freePages[|s.freePages| - 1];
    assert q in s.freePages;
  }

  lemma StoreKeepsPlaces(s: Snap, s': Snap)
    requires s' == s.(hdr := s'.hdr, body := s'.body, remembered := s'.remembered)
    ensures KeepsPlaces(s, s')
  {
  }

  lemma SameObjects(h: Heap, p: nat, k: nat, c: nat)
    requires p in h.bits && p in h.refs && k < |h.refs[p]| && (c != 0 ==> c in h.bits)
    ensures SetRef(h, p, k, c).refs.Keys == h.refs.Keys
  {
  }

  lemma PoolsKeepPlaces(s: Snap, pools: seq<Pool>)
    ensures KeepsPlaces(s, s.(pools := pools))
  {
  }

  lemma PlacesTwice(a: Snap, b: Snap, c: Snap)
    requires KeepsPlaces(a, b) && KeepsPlaces(b, c)
    ensures KeepsPlaces(a, c)
  {
    hide IsBig;
    forall i: nat, o | OnThePage(a, i, o) ensures OnThePage(c, i, o) && c.pages[i].osize == a.pages[i].osize {
      assert OnThePage(b, i, o);
    }
  }

  lemma PlacesKept(s: Snap, keep: set<nat>, s': Snap, keep': set<nat>)
    requires OkSnap(s, keep) && OkSnap(s', keep') && KeepsPlaces(s, s')
    ensures forall p :: p in Abs(s).refs ==> Extent(s', p) == Extent(s, p)
  {
    hide KeepsPlaces, Extent, Inv, AllFlagsOk, Counted, TableOk, LayoutOk, PoolsOk;
    forall p | p in Abs(s).refs ensures Extent(s', p) == Extent(s, p) { KeepsExtent(s, s', p); }
  }

  lemma BigFits(s: Snap, keep: set<nat>, o: nat, total: nat)
    requires OkSnap(s, keep) && IsBig(s, (o, AlignUp(total)))
    ensures total <= Extent(s, o) && (2032 < total ==> Fits(total, Extent(s, o)))
  {
    hide Extent, Inv, AllFlagsOk, Counted, TableOk, LayoutOk, PoolsOk;
    ExtentOfBig(s, (o, AlignUp(total)));
    AlignedUp(total);
  }

  lemma TakingKeepsPlaces(s: Snap, q: nat, w: nat, fields: seq<nat>)
    requires CanTake(s, q)
    requires s.pages[q].freelist != 0 ==> s.pages[q].freelist in s.hdr && s.views[q].free != []
    ensures KeepsPlaces(s, AllocOnPage(s, q, w, fields))
    ensures OnThePage(AllocOnPage(s, q, w, fields), q, NextCell(s.pages[q])) && AllocOnPage(s, q, w, fields).pages[q].osize == s.pages[q].osize
  {
    hide LayoutOk, PoolsOk, Cells, Cell, Cap, Split;
    assert PageOk(s.hdr, s.pages[q], s.views[q]);
  }

  lemma CellFitsObject(s: Snap, keep: set<nat>, q: nat, w: nat, fields: seq<nat>, total: nat)
    requires CanTake(s, q) && total <= s.pages[q].osize && Fits(total, s.pages[q].osize)
    requires s.pages[q].freelist != 0 ==> s.pages[q].freelist in s.hdr && s.views[q].free != []
    requires OkSnap(AllocOnPage(s, q, w, fields), keep)
    ensures var n := Extent(AllocOnPage(s, q, w, fields), NextCell(s.pages[q])); total <= n && Fits(total, n)
  {
    hide Extent, Inv, AllFlagsOk, Counted, TableOk, LayoutOk, PoolsOk, AllocOnPage, NextCell, Fits;
    TakingKeepsPlaces(s, q, w, fields);
    ExtentOnPage(AllocOnPage(s, q, w, fields), q, NextCell(s.pages[q]));
  }

  /** The sweep changes neither where pages start nor the size of their cells, and makes no block. */
  lemma SweepKeepsGeometry(s: Snap, m: Snap, s1: Snap, swept: Snap, full: bool)
    requires SameGeometry(s.pages, m.pages) && AllSwept(m, s1, swept, full)
    requires m.bigsYoung == s.bigsYoung && m.bigsOld == s.bigsOld && m.freeBigs == s.freeBigs
    ensures SameGeometry(s.pages, swept.pages) && forall b :: IsBig(swept, b) ==> b in AllBlocks(s)
  {
    hide Sound, SameRest, Aged, Counted, YoungAfter, OldAfter, FreeAfter, SweptAt, InPages, AllIn;
    BlocksAfter(m, full);
  }

  lemma SurvivorsKeepExtents(s: Snap, keep: set<nat>, m: Snap, s1: Snap, swept: Snap, s': Snap, roots: seq<nat>, full: bool)
    requires OkSnap(s, keep) && SameGeometry(s.pages, m.pages) && AllSwept(m, s1, swept, full)
    requires m.bigsYoung == s.bigsYoung && m.bigsOld == s.bigsOld && m.freeBigs == s.freeBigs
    requires s'.pages == swept.pages && s'.bigsYoung == swept.bigsYoung && s'.bigsOld == swept.bigsOld
    requires OkSnap(s', MarkedSet(Abs(m))) && Collected(Abs(s), roots, full, Abs(s'))
    ensures forall o :: o in Abs(s').refs ==> Extent(s', o) == Extent(s, o)
  {
    hide Extent, Inv, AllFlagsOk, Counted, Sound, AllSwept, SameGeometry, AllBlocks, Objs, Bits, RefsOf, Collected, MarkedSet;
    SweepKeepsGeometry(s, m, s1, swept, full);
    forall o | o in Abs(s').refs ensures Extent(s', o) == Extent(s, o) {
      NoneMade(Abs(s), roots, full, Abs(s'), o);
      LeftKeepsExtent(s, s', o);
    }
  }

  lemma NoneMade(h: Heap, roots: seq<nat>, full: bool, h': Heap, o: nat)
    requires Collected(h, roots, full, h') && o in h'.refs
    ensures o in h.refs
  {
  }

  lemma HeldIsAllocated(s: Snap, keep: set<nat>)
    requires OkSnap(s, keep)
    ensures keep <= Abs(s).refs.Keys && keep <= Abs(s).bits.Keys
  {
    hide Valid, Abs;
  }

  lemma RequeueNone(h: Heap)
    ensures Requeued(h, []) == h
  {
    assert Requeued(h, []).bits == h.bits;
  }

  /** After the sweep the heap is consistent and what is remembered is old-marked in it. */
  lemma SweptOk(s: Snap, keep: set<nat>, m: Snap, s1: Snap, swept: Snap, roots: seq<nat>, full: bool)
    requires OkSnap(s, keep) && Marking(m, []) && Sound(m) && MarkPhase(Abs(s), roots, Abs(m)) && AllSwept(m, s1, swept, full)
    ensures Valid(swept) && Sound(swept) && swept.remembered == m.remembered
    ensures !full ==> forall p :: p in m.remembered ==> p in Abs(swept).bits && Abs(swept).bits[p] == OLD_MARKED
  {
    hide Bits, RefsOf, AllSwept, Marking, Inv, Objs, Reaches, Scanned, ChildrenMarked, HasYoungMarked;
    SweptValid(m, s1, swept, full);
    SweptAbs(m, s1, swept, full);
    SweptRest(m, s1, swept, full);
    forall p | p in m.remembered && !full ensures p in Abs(swept).bits && Abs(swept).bits[p] == OLD_MARKED {
      assert p in Abs(m).remset && p in MarkedSet(Abs(m));
    }
  }

  lemma CollectOk(s: Snap, keep: set<nat>, m: Snap, s1: Snap, swept: Snap, s': Snap, roots: seq<nat>, full: bool)
    requires OkSnap(s, keep) && Marking(m, []) && Sound(m) && MarkPhase(Abs(s), roots, Abs(m)) && AllSwept(m, s1, swept, full)
    requires Valid(swept) && swept.top == s.top && Valid(s') && s'.top == s.top && s'.live == swept.live
    requires (forall r :: r in roots && r != 0 ==> r in keep)
    requires Abs(s') == if full then Abs(swept).(remset := []) else Requeued(Abs(swept), m.remembered)
    ensures OkSnap(s', MarkedSet(Abs(m))) && Collected(Abs(s), roots, full, Abs(s'))
    ensures forall o :: Reaches(Abs(s).refs, roots, o) ==> o in MarkedSet(Abs(m))
    ensures s'.live <= s.live && s.live - s'.live + |Abs(s').refs| == |Abs(s).refs|
  {
    hide Bits, RefsOf, AllSwept, Marking, Inv, Reaches, Scanned, ChildrenMarked, HasYoungMarked, Sound, Objs, AfterSweep, Valid, Closed, Requeued;
    var h, hm, left := Abs(s), Abs(m), Objs(swept);
    SweptAbs(m, s1, swept, full);
    CollectKeepsInv(h, keep, roots, hm, full, left);
    MarkedIsClosed(h, keep, roots, hm);
    RememberedIsLeft(h, roots, hm, full, left);
    RequeuedIsAfterSweep(hm, Abs(swept), full, left);
    forall o | Reaches(h.refs, roots, o) ensures o in MarkedSet(hm) {
      ReachedIsKept(h.refs, MarkedSet(hm), roots, o);
    }
    LiveIsCount(s);
    LiveIsCount(s');
    LiveIsCount(swept);
    assert left <= h.refs.Keys;
    SubsetSize(left, h.refs.Keys);
    assert |h.refs.Keys| == |h.refs|;
  }

  lemma RememberedIsLeft(h: Heap, roots: seq<nat>, m: Heap, full: bool, left: set<nat>)
    requires MarkPhase(h, roots, m) && SweepFrees(m, full, left)
    ensures left <= m.bits.Keys && forall o :: o in m.remset ==> o in left && m.bits[o] == OLD_MARKED
  {
    hide Reaches, Scanned, ChildrenMarked, HasYoungMarked;
    forall o | o in m.remset ensures o in left && m.bits[o] == OLD_MARKED {
      assert o in MarkedSet(m);
    }
  }

  lemma SumNone(views: seq<View>)
    ensures SumLive(views[..0]) == 0
  {
  }

  lemma SumSnoc(views: seq<View>, n: nat)
    requires n < |views|
    ensures SumLive(views[..n + 1]) == SumLive(views[..n]) + |views[n].occ|
  {
    assert views[..n + 1][..n] == views[..n];
  }

  lemma SweepSizes(m: Snap, s: Snap, n: nat, full: bool)
    requires SweepInv(m, s, n, full)
    ensures n <= |s.pages| == |s.views| == |m.pages|
  {
    hide Sound, SweptAt, InPages;
  }

  /** The big objects are as the mark phase left them when their turn comes. */
  lemma BigFacts(m: Snap, s: Snap, full: bool)
    requires Marking(m, []) && SweepInv(m, s, |m.pages|, full)
    ensures AllIn(m.hdr, m.bigsYoung) && AllIn(m.hdr, m.bigsOld) && DistinctOffs(m.bigsYoung) && DistinctOffs(m.bigsOld)
    ensures Offs(m.bigsYoung) !! Offs(m.bigsOld) && s.hdr.Keys == m.hdr.Keys
    ensures s.bigsYoung == m.bigsYoung && s.bigsOld == m.bigsOld && s.freeBigs == m.freeBigs
  {
    hide TableOk, LayoutOk, PoolsOk, SweptAt, InPages, PageMarking;
    MarkingIsSound(m, []);
    BigsDistinct(m);
    BigsInHdr(m);
  }

  lemma NothingPicked(hdr: map<nat, nat>, young: seq<Block>, full: bool, hdr1: map<nat, nat>)
    requires AllIn(hdr, young)
    ensures AllIn(hdr, young[..0]) && Aged(hdr1, hdr1, {}) && Offs([]) == {}
    ensures forall fate :: Pick(hdr, young[..0], full, fate) == []
    ensures forall k :: 0 <= k <= |young| ==> AllIn(hdr, young[..k])
  {
  }

  /** One step of the walk over young big objects. */
  lemma NextBig(m: Snap, s: Snap, hdr: map<nat, nat>, full: bool, k: nat)
    requires Marking(m, []) && SweepInv(m, s, |m.pages|, full) && k < |m.bigsYoung| && AllIn(m.hdr, m.bigsYoung)
    requires AllIn(m.hdr, m.bigsYoung[..k]) && Aged(s.hdr, hdr, Offs(Pick(m.hdr, m.bigsYoung[..k], full, StaysYoung)))
    ensures var b := m.bigsYoung[k];
            && b.0 in hdr && b.0 in m.hdr && hdr[b.0] == m.hdr[b.0] && AllIn(m.hdr, m.bigsYoung[..k + 1])
            && Aged(s.hdr, SetBits(hdr, b.0, OLD), Offs(Pick(m.hdr, m.bigsYoung[..k], full, StaysYoung) + [b]))
            && forall fate :: Pick(m.hdr, m.bigsYoung[..k + 1], full, fate)
                 == Pick(m.hdr, m.bigsYoung[..k], full, fate) + if FateOf(Bits(m.hdr[b.0]), full) == fate then [b] else []
  {
    hide Marking, SweepInv, Pick, Bits, WithBits, Aged;
    var b := m.bigsYoung[k];
    BigFacts(m, s, full);
    assert b.0 in Offs(m.bigsYoung);
    BigOutside(m, s, full, b.0);
    NotYetAged(m.hdr, m.bigsYoung, k, full);
    AgeOne(s.hdr, hdr, Offs(Pick(m.hdr, m.bigsYoung[..k], full, StaysYoung)), b.0);
    OffsAppend(Pick(m.hdr, m.bigsYoung[..k], full, StaysYoung), b);
    forall fate ensures Pick(m.hdr, m.bigsYoung[..k + 1], full, fate)
                 == Pick(m.hdr, m.bigsYoung[..k], full, fate) + if FateOf(Bits(m.hdr[b.0]), full) == fate then [b] else []
    {
      PickStep(m.hdr, m.bigsYoung, k, full, fate);
    }
    AgedKeys(s.hdr, hdr, Offs(Pick(m.hdr, m.bigsYoung[..k], full, StaysYoung)));
  }

  lemma AgedKeys(hdr: map<nat, nat>, hdr': map<nat, nat>, offs: set<nat>)
    requires Aged(hdr, hdr', offs)
    ensures hdr'.Keys == hdr.Keys
  {
  }

  lemma NotBefore(bs: seq<Block>, k: nat)
    requires DistinctOffs(bs) && k < |bs|
    ensures bs[k].0 !in Offs(bs[..k])
  {
    forall i | 0 <= i < k ensures bs[..k][i].0 != bs[k].0 { assert bs[i].0 != bs[k].0; }
  }

  lemma OldBigFacts(m: Snap, s1: Snap, hdr: map<nat, nat>, full: bool)
    requires Marking(m, []) && SweepInv(m, s1, |m.pages|, full) && AllIn(m.hdr, m.bigsYoung)
    requires Aged(s1.hdr, hdr, Offs(Pick(m.hdr, m.bigsYoung, full, StaysYoung)))
    ensures AllIn(hdr, m.bigsOld) && DistinctOffs(m.bigsOld)
    ensures Offs(Pick(m.hdr, m.bigsYoung, full, StaysYoung)) !! Offs(m.bigsOld)
  {
    hide Marking, SweepInv, Pick, Bits, Aged;
    BigFacts(m, s1, full);
    AgedKeys(s1.hdr, hdr, Offs(Pick(m.hdr, m.bigsYoung, full, StaysYoung)));
    forall o | o in Offs(Pick(m.hdr, m.bigsYoung, full, StaysYoung)) ensures o in Offs(m.bigsYoung) {
      PickOffs(m.hdr, m.bigsYoung, full, StaysYoung, o);
    }
  }

  /** What is known of page `n` when its turn comes. */
  lemma SweepFacts(m: Snap, s: Snap, n: nat, full: bool)
    requires Marking(m, []) && SweepInv(m, s, n, full) && n < |s.pages|
    ensures PoolsOk(s.pages, s.pools, s.freePages) && s.prevFull == m.prevFull && n < |s.views| == |s.pages| && s.views[n].occ <= s.hdr.Keys
    ensures s.pages[n].inUse ==> PageOk(s.hdr, s.pages[n], s.views[n]) && s.pages[n].liveN == |s.views[n].occ|
    ensures s.pages[n].inUse ==> MarkFlags(s.hdr, s.pages[n], s.views[n].occ, s.prevFull, [])
    ensures !s.pages[n].inUse ==> s.views[n].occ == {} && PageSwept(s.hdr, {}, s.hdr, s.pages[n], {}, full, s.prevFull)
  {
    hide LayoutOk, PoolsOk, MarkFlags, SweptAt, InPages, FlagsOk;
    OccIsObject(s, n);
    if s.pages[n].inUse {
      assert PageMarking(m, n, []);
      forall o | o in s.views[n].occ ensures o in s.hdr && s.hdr[o] == m.hdr[o] {
        ObjectNotBefore(s, n, o);
      }
      FlagsCarry(m.hdr, s.hdr, s.pages[n], s.views[n].occ, s.prevFull);
    }
  }

  lemma FlagsCarry(hdr: map<nat, nat>, hdr': map<nat, nat>, pg: Page, occ: set<nat>, prevFull: bool)
    requires occ <= hdr.Keys && occ <= hdr'.Keys && MarkFlags(hdr, pg, occ, prevFull, [])
    requires forall o :: o in occ ==> hdr'[o] == hdr[o]
    ensures MarkFlags(hdr', pg, occ, prevFull, [])
  {
    hide Bits;
    assert OldMarkedCells(hdr', occ) == OldMarkedCells(hdr, occ);
  }

  lemma ChangedOnePage(s: Snap, s': Snap, n: nat)
    requires n < |s.pages| == |s.views|
    requires s' == s || OnePageChanged(s, s', n)
             || (s' == s.(pages := s'.pages, pools := s'.pools, freePages := s'.freePages, views := s'.views)
                 && s'.pages == s.pages[n := s.pages[n].(inUse := false, liveN := 0)] && s'.views == s.views[n := View({}, [], 0)])
    ensures OnePageChanged(s, s', n)
  {
    if s' == s {
      assert s.pages == s.pages[n := s.pages[n]] && s.views == s.views[n := s.views[n]];
    }
  }

  lemma WalkShape(hdr: map<nat, nat>, pg: Page, v: View)
    requires PageOk(hdr, pg, v)
    ensures 0 < pg.osize && pg.start <= pg.bump && Used(pg) <= Cap(pg.osize)
  {
    hide LinkedList, Split, Cells, Cap, Used;
    PageShape(hdr, pg, v);
  }

  lemma WalkedOk(hdr: map<nat, nat>, hdr': map<nat, nat>, pg: Page, v: View, fl: nat, v': View, full: bool, prevFull: bool, nfree: nat, liveN: nat)
    requires PageOk(hdr, pg, v) && pg.inUse && 0 < pg.osize && pg.start <= pg.bump && Used(pg) <= Cap(pg.osize)
    requires WalkedHeaders(hdr, hdr', Cells(pg.start, pg.osize, v.used), full)
    requires v'.used == v.used && v.occ <= hdr.Keys && v'.occ == MarkedCells(hdr, v.occ)
    requires Split(v'.occ, v'.free, Cells(pg.start, pg.osize, v.used))
    requires LinkedList(hdr', fl, v'.free) && nfree == |v'.free| && liveN == |v'.occ|
    ensures var pg' := WalkedPage(pg, fl, nfree, liveN, full);
            && PageOk(hdr', pg', v') && PageSwept(hdr, v.occ, hdr', pg', v'.occ, full, prevFull)
            && pg'.start == pg.start && pg'.osize == pg.osize && pg'.inUse && (nfree == 0 && 0 < pg'.nfree ==> 0 < pg.nfree)
    ensures hdr'.Keys == hdr.Keys && forall c :: c in hdr && !Inside(pg, c) ==> hdr'[c] == hdr[c]
  {
    hide LinkedList, Split, MarkedCells, Cells, Cap, Used, PageSwept;
    var pg' := WalkedPage(pg, fl, nfree, liveN, full);
    PageShape(hdr, pg, v);
    WalkedPageOk(hdr, hdr', pg, v, fl, v', full, pg');
    PageHasSplit(hdr, pg, v);
    OccInCells(v.occ, v.free, Cells(pg.start, pg.osize, v.used));
    WalkSwept(hdr, hdr', Cells(pg.start, pg.osize, v.used), v.occ, pg', full, prevFull);
    forall c | c in hdr && !Inside(pg, c) ensures hdr'[c] == hdr[c] {
      CellsInside(hdr, pg, v, c);
    }
  }

  lemma OccInCells(occ: set<nat>, free: seq<nat>, cells: set<nat>)
    requires Split(occ, free, cells)
    ensures occ <= cells
  {
    forall c | c in occ ensures c in cells { SplitMembers(occ, free, cells, c); }
  }

  lemma CellsInside(hdr: map<nat, nat>, pg: Page, v: View, c: nat)
    requires PageOk(hdr, pg, v) && 0 < pg.osize
    ensures c in Cells(pg.start, pg.osize, v.used) ==> Inside(pg, c)
  {
    hide PageOk, Cells, Split;
    PageHasSplit(hdr, pg, v);
    SplitMembers(v.occ, v.free, Cells(pg.start, pg.osize, v.used), c);
    if c in Cells(pg.start, pg.osize, v.used) { CellInPage(hdr, pg, v, c); }
  }

  // --- lookups ------------------------------------------------------------------------------------------

  ghost predicate SortedPages(pages: seq<Page>) {
    forall i, j :: 0 <= i < j < |pages| ==> pages[i].start + PAGE_SIZE <= pages[j].start
  }

  /** The page in use that covers an offset, by binary search: the same answer a linear search gives. */
  method PageOf(pages: seq<Page>, off: nat) returns (r: Option<nat>)
    requires SortedPages(pages)
    ensures r.Some? ==> r.value < |pages| && pages[r.value].inUse && Inside(pages[r.value], off)
    ensures r.None? ==> forall i :: 0 <= i < |pages| && pages[i].inUse ==> !Inside(pages[i], off)
  {
    var lo, hi := 0, |pages|;
    while lo < hi
      invariant 0 <= lo <= hi <= |pages|
      invariant forall i :: 0 <= i < lo ==> pages[i].start + PAGE_SIZE <= off
      invariant forall i :: hi <= i < |pages| ==> off < pages[i].start + PAGE_SIZE
    {
      var mid := (lo + hi) / 2;
      if pages[mid].start + PAGE_SIZE <= off {
        lo := mid + 1;
      } else {
        hi := mid;
      }
    }
    if lo < |pages| && pages[lo].start <= off && pages[lo].inUse {
      return Some(lo);
    }
    return None;
  }

  lemma SoundSorted(s: Snap)
    requires Sound(s)
    ensures SortedPages(s.pages)
  {
  }

  /** For an object the search finds its page, or none for a big object. */
  lemma FoundHolds(s: Snap, v: nat, q: nat)
    requires Sound(s) && v in Objs(s) && q <= |s.pages| == |s.views|
    requires q < |s.pages| ==> s.pages[q].inUse && Inside(s.pages[q], v)
    requires q == |s.pages| ==> forall i :: 0 <= i < |s.pages| && s.pages[i].inUse ==> !Inside(s.pages[i], v)
    ensures Holds(s, q, v)
  {
    hide TableOk, LayoutOk, PoolsOk;
    SoundSorted(s);
    if v in PageObjs(s.views) {
      var i :| 0 <= i < |s.views| && v in s.views[i].occ;
      OnPage(s, i, v);
    } else if q < |s.pages| {
      BigOffPage(s, v, q);
    }
  }

  lemma YoungAt(hdr: map<nat, nat>, refs: seq<nat>)
    ensures YoungAmong(hdr, refs) <==> exists j :: 0 <= j < |refs| && refs[j] != 0 && refs[j] in hdr && !IsOld(Bits(hdr[refs[j]]))
  {
    hide Bits;
    if YoungAmong(hdr, refs) {
      var c :| c in refs && c != 0 && c in hdr && !IsOld(Bits(hdr[c]));
      var j :| 0 <= j < |refs| && refs[j] == c;
    }
  }

  lemma StateStartOk(s: Snap, keep: set<nat>, roots: seq<nat>)
    requires OkSnap(s, keep) && forall r :: r in roots && r != 0 ==> r in keep
    ensures MarkState(Abs(s), keep, roots, s.(remembered := []), s.remembered, roots)
  {
    StateStart(s, keep, roots);
  }

  lemma StateKeys(h: Heap, keep: set<nat>, roots: seq<nat>, s: Snap, work: seq<nat>)
    requires MarkState(h, keep, roots, s, [], work)
    ensures Objs(s) <= s.hdr.Keys
  {
  }

  lemma StateSound(h: Heap, keep: set<nat>, roots: seq<nat>, s: Snap, pending: seq<nat>, work: seq<nat>)
    requires MarkState(h, keep, roots, s, pending, work)
    ensures Sound(s)
  {
  }

  lemma VisitHeaders(s: Snap, q: nat, v: nat)
    requires v in s.hdr && q <= |s.pages|
    ensures VisitSnap(s, q, v).hdr == SetBits(s.hdr, v, Bits(s.hdr[v]) + MARKED) && VisitSnap(s, q, v).hdr.Keys == s.hdr.Keys
    ensures VisitSnap(s, q, v).remembered == s.remembered
  {
  }

  /** What a new object may refer to: null, kept objects. */
  ghost predicate MayRefer(keep: set<nat>, typ: nat, fields: seq<nat>) {
    (typ != 0 ==> typ in keep) && forall c :: c in fields && c != 0 ==> c in keep
  }

  lemma TypeWord(typ: nat)
    ensures Bits(TypeOf(typ)) == CLEAN && TypeOf(TypeOf(typ)) == TypeOf(typ)
  {
  }

  lemma SameRoom(s: Snap, s': Snap, osize: nat)
    requires s'.pages == s.pages && s'.freePages == s.freePages && s'.top == s.top
    ensures NoPage(s, osize) <==> NoPage(s', osize)
  {
  }

  // --- keeping the heap right ---------------------------------------------------------------------

  lemma OkIsSound(s: Snap, keep: set<nat>)
    requires OkSnap(s, keep)
    ensures Sound(s) && Objs(s) <= s.hdr.Keys && Objs(s) <= s.body.Keys && s.top <= REGION_SIZE
  {
  }

  lemma PoolsOfOk(s: Snap, keep: set<nat>)
    requires OkSnap(s, keep)
    ensures PoolsOk(s.pages, s.pools, s.freePages)
  {
  }

  lemma QueuesOk(s: Snap, keep: set<nat>, pools: seq<Pool>)
    requires OkSnap(s, keep) && PoolsOk(s.pages, pools, s.freePages)
    ensures var s' := s.(pools := pools); OkSnap(s', keep) && Abs(s') == Abs(s)
  {
    hide Valid, Inv, Abs;
    QueuesKeepValid(s, pools);
  }

  lemma PoolForOk(s: Snap, keep: set<nat>, osize: nat, pools: seq<Pool>)
    requires OkSnap(s, keep) && pools == if NoPool(s.pools, osize) then s.pools + [Pool(osize, [])] else s.pools
    ensures var s' := s.(pools := pools); OkSnap(s', keep) && Abs(s') == Abs(s)
  {
    hide OkSnap, Abs, PoolsOk;
    PoolsOfOk(s, keep);
    if NoPool(s.pools, osize) { NewPool(s.pages, s.pools, s.freePages, osize); }
    QueuesOk(s, keep, pools);
  }

  lemma RecycleOk(s: Snap, keep: set<nat>, p: nat)
    requires OkSnap(s, keep) && p < |s.pools| && GoodSize(s.pools[p].osize) && s.freePages != []
    ensures s.freePages[|s.freePages| - 1] < |s.pages| == |s.views|
    ensures var s' := RecyclePage(s, p);
            && OkSnap(s', keep) && Abs(s') == Abs(s)
            && CanTake(s', s.freePages[|s.freePages| - 1])
  {
    hide Valid, Inv, Abs;
    RecycleKeepsValid(s, p);
  }

  lemma FreshOk(s: Snap, keep: set<nat>, p: nat)
    requires OkSnap(s, keep) && p < |s.pools| && GoodSize(s.pools[p].osize) && s.top + PAGE_SIZE <= REGION_SIZE
    ensures var s' := FreshPage(s, p);
            && OkSnap(s', keep) && Abs(s') == Abs(s)
            && CanTake(s', |s.pages|)
  {
    hide Valid, Inv, Abs;
    FreshKeepsValid(s, p);
  }

  lemma NewObjectOk(s: Snap, keep: set<nat>, o: nat, typ: nat, fields: seq<nat>)
    requires OkSnap(s, keep) && MayRefer(keep, typ, fields) && o != 0 && o !in Objs(s)
    ensures Inv(NewObject(Abs(s), o, [typ] + fields), keep + {o}) && o !in Abs(s).refs
  {
    hide Valid, Inv, Bits, TypeOf;
    ValidKeys(s);
    NewObjectKeepsInv(Abs(s), keep, o, [typ] + fields);
  }

  lemma NewCellOk(s: Snap, keep: set<nat>, q: nat, w: nat, fields: seq<nat>)
    requires OkSnap(s, keep) && CanTake(s, q) && Bits(w) == CLEAN && MayRefer(keep, TypeOf(w), fields)
    ensures q < |s.pages| == |s.views| && 0 < s.pages[q].nfree
    ensures s.pages[q].freelist != 0 ==> s.pages[q].freelist in s.hdr && s.views[q].free != []
    ensures var c := NextCell(s.pages[q]); c !in Abs(s).refs && c != 0
    ensures var s' := AllocOnPage(s, q, w, fields);
            && OkSnap(s', keep + {NextCell(s.pages[q])})
            && Abs(s') == NewObject(Abs(s), NextCell(s.pages[q]), [TypeOf(w)] + fields)
  {
    hide Valid, Inv, Bits, TypeOf, NextCell, TakeCell, TakeView;
    AllocOnPageKeepsValid(s, q, w, fields);
    NewObjectOk(s, keep, NextCell(s.pages[q]), TypeOf(w), fields);
  }

  lemma NewBlockOk(s: Snap, keep: set<nat>, o: nat, size: nat, freeBigs: seq<Block>, top: nat, w: nat, fields: seq<nat>)
    requires OkSnap(s, keep) && Room(s, o, size, freeBigs, top) && top <= REGION_SIZE && Bits(w) == CLEAN && MayRefer(keep, TypeOf(w), fields)
    ensures o !in Abs(s).refs && o != 0
    ensures var s' := AllocBig(s, o, size, freeBigs, top, w, fields);
            && OkSnap(s', keep + {o})
            && Abs(s') == NewObject(Abs(s), o, [TypeOf(w)] + fields)
  {
    hide Valid, Inv, Bits, TypeOf, Room;
    AllocBigKeepsValid(s, o, size, freeBigs, top, w, fields);
    NewObjectOk(s, keep, o, TypeOf(w), fields);
  }

  lemma HasRoom(s: Snap, q: nat)
    requires CanTake(s, q)
    ensures q < |s.pages| == |s.views| && s.pages[q].inUse && 0 < s.pages[q].nfree
  {
  }

  lemma RoomCanTake(s: Snap, keep: set<nat>, q: nat)
    requires OkSnap(s, keep) && q < |s.pages| && s.pages[q].inUse && 0 < s.pages[q].nfree
    ensures CanTake(s, q)
  {
  }

  lemma StoreOk(s: Snap, keep: set<nat>, parent: nat, k: nat, child: nat)
    requires OkSnap(s, keep) && parent in keep && k + 1 < |Abs(s).refs[parent]| && (child != 0 ==> child in keep)
    ensures parent in s.hdr && parent in s.body && k < |s.body[parent]| && (child != 0 ==> child in s.hdr)
    ensures parent in Abs(s).bits && (child != 0 ==> child in Abs(s).bits)
    ensures var s' := StoreSnap(s, parent, k, child);
            OkSnap(s', keep) && Abs(s') == SetRef(Abs(s), parent, k + 1, child)
  {
    hide Valid, Bits, WithBits, TypeOf, Inv, SetRef;
    KeepIsAllocated(s, keep);
    SetRefKeepsInv(Abs(s), keep, parent, k + 1, child);
    StoreKeepsValid(s, parent, k, child);
  }

  lemma KeepIsAllocated(s: Snap, keep: set<nat>)
    requires OkSnap(s, keep)
    ensures keep <= Objs(s) && Objs(s) <= s.hdr.Keys && Objs(s) <= s.body.Keys
    ensures forall o :: o in Objs(s) ==> |Abs(s).refs[o]| == |s.body[o]| + 1
  {
    hide Sound, Counted, AllFlagsOk, TypeOf, Bits;
    ValidKeys(s);
  }
}
