/** What each heap operation does to a snapshot: it stays consistent, and the abstract heap takes the
    corresponding step. */
module GcOps {
  import opened GcModel
  import opened GcPages
  import opened GcState

  // --- the barrier and stores ------------------------------------------------------------------

  function SetBits(hdr: map<nat, nat>, o: nat, b: nat): map<nat, nat>
    requires o in hdr
  {
    hdr[o := WithBits(hdr[o], b)]
  }

  /** Changing the state of objects that have the mark bit to one that has it. */
  lemma RemarkKeepsValid(s: Snap, o: nat, b: nat)
    requires Valid(s) && o in Objs(s) && HasMark(Bits(s.hdr[o])) && HasMark(b)
    ensures Valid(s.(hdr := SetBits(s.hdr, o, b)))
  {
    hide Bits, WithBits, TableOk, LayoutOk, PoolsOk;
    var s' := s.(hdr := SetBits(s.hdr, o, b));
    WithBitsBits(s.hdr[o], b);
    HeadersKeepSound(s, s'.hdr);
    forall i | 0 <= i < |s.pages| && s.pages[i].inUse
      ensures PageFlags(s', i)
    {
      OccInHdr(s, i);
      assert PageFlags(s, i);
    }
  }

  /** Header changes that keep the type leave the references alone. */
  lemma RefsIgnoreBits(s: Snap, s': Snap)
    requires Objs(s') == Objs(s) && s'.body == s.body
    requires Objs(s) <= s.hdr.Keys && Objs(s) <= s.body.Keys && Objs(s) <= s'.hdr.Keys
    requires forall o :: o in Objs(s) ==> TypeOf(s'.hdr[o]) == TypeOf(s.hdr[o])
    ensures Abs(s').refs == Abs(s).refs
  {
    hide Bits, TypeOf;
  }

  lemma RemarkAbs(s: Snap, o: nat, b: nat)
    requires Sound(s) && o in Objs(s) && b < 4
    ensures var s' := s.(hdr := SetBits(s.hdr, o, b));
            Objs(s') <= s'.hdr.Keys && Abs(s') == Abs(s).(bits := Abs(s).bits[o := b])
  {
    hide Bits, WithBits, TypeOf, TableOk, LayoutOk, PoolsOk, RefsOf;
    WithBitsBits(s.hdr[o], b);
    var s' := s.(hdr := SetBits(s.hdr, o, b));
    assert Objs(s') == Objs(s);
    RefsIgnoreBits(s, s');
    assert Abs(s').bits == Abs(s).bits[o := b];
  }

  lemma FieldAbs(s: Snap, o: nat, fields: seq<nat>)
    requires Objs(s) <= s.hdr.Keys && Objs(s) <= s.body.Keys && o in Objs(s)
    ensures Abs(s.(body := s.body[o := fields])) == Abs(s).(refs := Abs(s).refs[o := [TypeOf(s.hdr[o])] + fields])
  {
    hide TypeOf, Bits, Objs;
    var s' := s.(body := s.body[o := fields]);
    ObjsIgnore(s, s');
    assert Abs(s').bits == Abs(s).bits;
    assert Abs(s').refs == Abs(s).refs[o := [TypeOf(s.hdr[o])] + fields];
  }

  /** Storing a reference field. */
  lemma FieldKeepsValid(s: Snap, o: nat, fields: seq<nat>)
    requires Valid(s) && o in Objs(s)
    ensures var s' := s.(body := s.body[o := fields]);
            Valid(s') && Abs(s') == Abs(s).(refs := Abs(s).refs[o := [TypeOf(s.hdr[o])] + fields])
  {
    hide TableOk, LayoutOk, PoolsOk, TypeOf, Bits, FlagsOk, Abs, SumLive;
    var s' := s.(body := s.body[o := fields]);
    assert Objs(s') == Objs(s);
    FieldAbs(s, o, fields);
    forall i | 0 <= i < |s.pages| && s.pages[i].inUse
      ensures PageFlags(s', i)
    {
      OccInHdr(s, i);
      assert PageFlags(s, i);
    }
  }

  /** The remembered set is no part of the structure. */
  lemma RememberKeepsValid(s: Snap, r: seq<nat>)
    requires Valid(s)
    ensures Valid(s.(remembered := r)) && Abs(s.(remembered := r)) == Abs(s).(remset := r)
  {
    hide TableOk, LayoutOk, PoolsOk, FlagsOk;
    assert Objs(s.(remembered := r)) == Objs(s);
  }

  /** A barriered store: the parent is queued when it is old-marked and the child unmarked. */
  ghost function StoreSnap(s: Snap, parent: nat, k: nat, child: nat): Snap
    requires parent in s.hdr && parent in s.body && k < |s.body[parent]| && (child != 0 ==> child in s.hdr)
  {
    var fires := child != 0 && Bits(s.hdr[parent]) == OLD_MARKED && !HasMark(Bits(s.hdr[child]));
    var fields: seq<nat> := s.body[parent];
    s.(hdr := if fires then SetBits(s.hdr, parent, MARKED) else s.hdr,
       remembered := if fires then s.remembered + [parent] else s.remembered,
       body := s.body[parent := fields[k := child]])
  }

  lemma StoreKeepsValid(s: Snap, parent: nat, k: nat, child: nat)
    requires Valid(s) && parent in Objs(s) && k < |s.body[parent]| && (child != 0 ==> child in Objs(s))
    ensures Valid(StoreSnap(s, parent, k, child))
    ensures k + 1 < |Abs(s).refs[parent]| && Abs(StoreSnap(s, parent, k, child)) == SetRef(Abs(s), parent, k + 1, child)
  {
    hide Valid, Bits, WithBits, TypeOf, Objs;
    ValidKeys(s);
    var fires := child != 0 && Bits(s.hdr[parent]) == OLD_MARKED && !HasMark(Bits(s.hdr[child]));
    var s1 := s;
    if fires {
      RemarkKeepsValid(s, parent, MARKED);
      RemarkAbs(s, parent, MARKED);
      WithBitsBits(s.hdr[parent], MARKED);
      var marked := s.(hdr := SetBits(s.hdr, parent, MARKED));
      RememberKeepsValid(marked, s.remembered + [parent]);
      s1 := marked.(remembered := s.remembered + [parent]);
      ObjsIgnore(s, s1);
    }
    assert s1 == s || (fires && Abs(s1) == WriteBarrier(Abs(s), parent, child));
    var fields: seq<nat> := s.body[parent];
    FieldKeepsValid(s1, parent, fields[k := child]);
    assert [TypeOf(s.hdr[parent])] + fields[k := child] == ([TypeOf(s.hdr[parent])] + fields)[k + 1 := child];
  }

  lemma ValidKeys(s: Snap)
    requires Valid(s)
    ensures Sound(s) && Objs(s) <= s.hdr.Keys && Objs(s) <= s.body.Keys
  {
  }

  lemma ObjsIgnore(s: Snap, s': Snap)
    requires s'.views == s.views && s'.bigsYoung == s.bigsYoung && s'.bigsOld == s.bigsOld
    ensures Objs(s') == Objs(s)
  {
  }

  // --- replacing one page ------------------------------------------------------------------------

  predicate Inside(pg: Page, c: nat) {
    pg.start <= c < pg.start + PAGE_SIZE
  }

  /** A page may be replaced, and headers inside it rewritten, without touching the other pages. */
  lemma TableReplace(hdr: map<nat, nat>, hdr': map<nat, nat>, pages: seq<Page>, views: seq<View>, top: nat, q: nat, pg': Page, v': View)
    requires TableOk(hdr, pages, views, top) && q < |pages| && pg'.start == pages[q].start
    requires hdr.Keys <= hdr'.Keys && forall c :: c in hdr && !Inside(pages[q], c) ==> hdr'[c] == hdr[c]
    requires if pg'.inUse then PageOk(hdr', pg', v') else v'.occ == {}
    ensures TableOk(hdr', pages[q := pg'], views[q := v'], top)
  {
    hide PageOk;
    forall i | 0 <= i < |pages| && i != q && pages[i].inUse ensures PageOk(hdr', pages[i], views[i]) {
      forall c | c in views[i].free ensures c in hdr && hdr'[c] == hdr[c] {
        PageShape(hdr, pages[i], views[i]);
        CellInPage(hdr, pages[i], views[i], c);
        FreeCellOnPage(hdr, pages[i], views[i], c);
        assert i < q || q < i;
      }
      PageIgnoresOthers(hdr, hdr', pages[i], views[i]);
    }
  }

  lemma {:induction false} SumReplace(views: seq<View>, q: nat, v': View)
    requires q < |views|
    ensures SumLive(views[q := v']) == SumLive(views) - |views[q].occ| + |v'.occ|
    ensures SumLive(views) >= |views[q].occ|
  {
    var n := |views| - 1;
    if q == n {
      assert views[q := v'][..n] == views[..n];
    } else {
      SumReplace(views[..n], q, v');
      assert views[q := v'][..n] == views[..n][q := v'];
    }
  }

  lemma ObjsReplace(views: seq<View>, q: nat, v': View)
    requires q < |views|
    ensures PageObjs(views[q := v']) <= PageObjs(views) + v'.occ && v'.occ <= PageObjs(views[q := v'])
    ensures views[q].occ <= v'.occ ==> PageObjs(views[q := v']) == PageObjs(views) + v'.occ
  {
    var views' := views[q := v'];
    forall o: nat | o in PageObjs(views') ensures o in PageObjs(views) + v'.occ {
      var i :| 0 <= i < |views'| && o in views'[i].occ;
      assert i != q ==> o in views[i].occ;
    }
    forall o: nat | o in v'.occ ensures o in PageObjs(views') {
      assert o in views'[q].occ;
    }
    if views[q].occ <= v'.occ {
      forall o: nat | o in PageObjs(views) ensures o in PageObjs(views') {
        var i :| 0 <= i < |views| && o in views[i].occ;
        assert o in views'[i].occ;
      }
    }
  }

  // --- allocation -------------------------------------------------------------------------------------

  /** Take a cell of page `q` and give it a header and fields. */
  ghost function AllocOnPage(s: Snap, q: nat, w: nat, fields: seq<nat>): Snap
    requires q < |s.pages| == |s.views| && 0 < s.pages[q].nfree
    requires s.pages[q].freelist != 0 ==> s.pages[q].freelist in s.hdr && s.views[q].free != []
  {
    var pg, v := s.pages[q], s.views[q];
    var c := NextCell(pg);
    s.(hdr := s.hdr[c := w], body := s.body[c := fields],
       pages := s.pages[q := TakeCell(s.hdr, pg)], views := s.views[q := TakeView(pg, v)], live := s.live + 1)
  }

  ghost predicate CanTake(s: Snap, q: nat) {
    Sound(s) && q < |s.pages| && s.pages[q].inUse && 0 < s.pages[q].nfree
  }

  /** The cell taken is new: no object has it. */
  lemma TakenIsNew(s: Snap, q: nat, w: nat)
    requires CanTake(s, q)
    ensures s.pages[q].freelist != 0 ==> s.pages[q].freelist in s.hdr && s.views[q].free != []
    ensures var c := NextCell(s.pages[q]); c !in Objs(s) && c != 0 && Inside(s.pages[q], c)
    ensures PageOk(s.hdr[NextCell(s.pages[q]) := w], TakeCell(s.hdr, s.pages[q]), TakeView(s.pages[q], s.views[q]))
    ensures TakeView(s.pages[q], s.views[q]).occ == s.views[q].occ + {NextCell(s.pages[q])}
  {
    hide PageOk, LayoutOk, PoolsOk;
    PageShape(s.hdr, s.pages[q], s.views[q]);
    TakeCellOk(s.hdr, s.pages[q], s.views[q], w);
    var c := NextCell(s.pages[q]);
    if c in PageObjs(s.views) {
      var j :| 0 <= j < |s.views| && c in s.views[j].occ;
      OnPage(s, j, c);
    } else if c in Objs(s) {
      BigOffPage(s, c, q);
    }
  }

  lemma TakeKeeps(hdr: map<nat, nat>, pg: Page, v: View)
    requires 0 < pg.nfree && (pg.freelist != 0 ==> pg.freelist in hdr && v.free != [])
    ensures var pg' := TakeCell(hdr, pg); pg'.start == pg.start && pg'.osize == pg.osize && pg'.inUse == pg.inUse
  {
  }

  lemma ObjsGrow(s: Snap, s': Snap, q: nat, c: nat)
    requires q < |s.views| == |s'.views| && s'.views == s.views[q := s'.views[q]] && s'.views[q].occ == s.views[q].occ + {c}
    requires s'.bigsYoung == s.bigsYoung && s'.bigsOld == s.bigsOld
    ensures Objs(s') == Objs(s) + {c}
    ensures c !in Objs(s) ==> SumLive(s'.views) == SumLive(s.views) + 1
  {
    hide SumLive;
    ObjsReplace(s.views, q, s'.views[q]);
    SumReplace(s.views, q, s'.views[q]);
    if c in s.views[q].occ { assert c in PageObjs(s.views); }
  }

  lemma AllocOnPageSound(s: Snap, q: nat, w: nat, fields: seq<nat>)
    requires CanTake(s, q)
    ensures |s.views| == |s.pages| && q < |s.pages|
    ensures s.pages[q].freelist != 0 ==> s.pages[q].freelist in s.hdr && s.views[q].free != []
    ensures var s' := AllocOnPage(s, q, w, fields);
            && Sound(s') && Objs(s') == Objs(s) + {NextCell(s.pages[q])}
            && SumLive(s'.views) == SumLive(s.views) + 1
  {
    hide PageOk, LayoutOk, PoolsOk, TableOk, TakeCell, TakeView, NextCell, Objs, SumLive;
    TakenIsNew(s, q, w);
    TakeKeeps(s.hdr, s.pages[q], s.views[q]);
    var c, s' := NextCell(s.pages[q]), AllocOnPage(s, q, w, fields);
    TableReplace(s.hdr, s'.hdr, s.pages, s.views, s.top, q, s'.pages[q], s'.views[q]);
    ObjsGrow(s, s', q, c);
    LayoutSameStarts(AllBlocks(s), s.pages, s'.pages, s.top);
    PoolsTake(s.pages, s'.pages, s.pools, s.freePages, q);
  }

  /** The layout of big blocks depends only on where pages start. */
  lemma LayoutSameStarts(all: multiset<Block>, pages: seq<Page>, pages': seq<Page>, top: nat)
    requires LayoutOk(all, pages, top) && |pages'| == |pages|
    requires forall i :: 0 <= i < |pages| ==> pages'[i].start == pages[i].start
    ensures LayoutOk(all, pages', top)
  {
    forall b | b in all ensures BlockOk(b, pages', top) {
      assert BlockOk(b, pages, top);
    }
  }

  lemma PoolsTake(pages: seq<Page>, pages': seq<Page>, pools: seq<Pool>, freePages: seq<nat>, q: nat)
    requires PoolsOk(pages, pools, freePages) && q < |pages| && pages[q].inUse && 0 < pages[q].nfree
    requires |pages'| == |pages| && pages' == pages[q := pages'[q]]
    requires pages'[q].inUse && pages'[q].osize == pages[q].osize
    ensures PoolsOk(pages', pools, freePages)
  {
    forall p: nat, r: nat | p < |pools| && r in pools[p].pageQ
      ensures InClass(pages', r, pools[p].osize)
    {
      assert InClass(pages, r, pools[p].osize);
    }
    forall i | 0 <= i < |pages'| && pages'[i].inUse && 0 < pages'[i].nfree ensures Queued(pools, i, pages'[i].osize) {
      assert Queued(pools, i, pages[i].osize);
    }
  }

  lemma FlagsIgnoreOthers(hdr: map<nat, nat>, pg: Page, occ: set<nat>, prevFull: bool, c: nat, w: nat)
    requires occ <= hdr.Keys && c !in occ && FlagsOk(hdr, pg, occ, prevFull)
    ensures FlagsOk(hdr[c := w], pg, occ, prevFull)
  {
    hide Bits;
  }

  lemma TakeFlags(hdr: map<nat, nat>, pg: Page, v: View, occ: set<nat>, prevFull: bool, w: nat)
    requires 0 < pg.nfree && (pg.freelist != 0 ==> pg.freelist in hdr && v.free != [])
    requires occ <= hdr.Keys && FlagsOk(hdr, pg, occ, prevFull) && Bits(w) == CLEAN
    ensures var c := NextCell(pg); FlagsOk(hdr[c := w], TakeCell(hdr, pg), occ + {c}, prevFull)
  {
    hide Bits;
  }

  lemma AllocOnPageFlags(s: Snap, q: nat, w: nat, fields: seq<nat>)
    requires CanTake(s, q) && Valid(s) && Bits(w) == CLEAN
    requires |s.views| == |s.pages| && (s.pages[q].freelist != 0 ==> s.pages[q].freelist in s.hdr && s.views[q].free != [])
    requires NextCell(s.pages[q]) !in Objs(s) && TakeView(s.pages[q], s.views[q]).occ == s.views[q].occ + {NextCell(s.pages[q])}
    ensures AllFlagsOk(AllocOnPage(s, q, w, fields))
  {
    hide Sound, Bits, PageFlags, NextCell, TakeCell, TakeView, Counted, Objs, PageObjs;
    var c, s' := NextCell(s.pages[q]), AllocOnPage(s, q, w, fields);
    forall i | 0 <= i < |s'.pages| && s'.pages[i].inUse ensures PageFlags(s', i) {
      AllocPageFlags(s, q, w, fields, i);
    }
    forall o | o in Offs(s.bigsOld) ensures o != c {
      OldIsObject(s, o);
    }
  }

  lemma AllocPageFlags(s: Snap, q: nat, w: nat, fields: seq<nat>, i: nat)
    requires CanTake(s, q) && Valid(s) && Bits(w) == CLEAN
    requires s.pages[q].freelist != 0 ==> s.pages[q].freelist in s.hdr && s.views[q].free != []
    requires var s' := AllocOnPage(s, q, w, fields); |s'.pages| == |s'.views| && i < |s'.pages| && s'.pages[i].inUse
    requires NextCell(s.pages[q]) !in Objs(s) && TakeView(s.pages[q], s.views[q]).occ == s.views[q].occ + {NextCell(s.pages[q])}
    ensures var s' := AllocOnPage(s, q, w, fields);
            PageFlags(s', i)
  {
    hide TableOk, LayoutOk, PoolsOk, Bits, FlagsOk, NextCell, TakeCell, TakeView, SumLive, Objs;
    OccInHdr(s, i);
    OccIsObject(s, i);
    if i == q {
      TakeFlags(s.hdr, s.pages[i], s.views[i], s.views[i].occ, s.prevFull, w);
    } else {
      FlagsIgnoreOthers(s.hdr, s.pages[i], s.views[i].occ, s.prevFull, NextCell(s.pages[q]), w);
    }
  }

  lemma AllocOnPageKeepsValid(s: Snap, q: nat, w: nat, fields: seq<nat>)
    requires CanTake(s, q) && Valid(s) && Bits(w) == CLEAN
    ensures s.pages[q].freelist != 0 ==> s.pages[q].freelist in s.hdr && s.views[q].free != []
    ensures var c := NextCell(s.pages[q]); c !in Objs(s) && c != 0
    ensures var s' := AllocOnPage(s, q, w, fields);
            Valid(s') && Abs(s') == NewObject(Abs(s), NextCell(s.pages[q]), [TypeOf(w)] + fields)
  {
    hide Sound, Bits, TypeOf, NextCell, TakeCell, TakeView, Objs, AllFlagsOk, SumLive;
    ValidKeys(s);
    TakenIsNew(s, q, w);
    AllocOnPageSound(s, q, w, fields);
    AllocOnPageFlags(s, q, w, fields);
    AllocAbs(s, AllocOnPage(s, q, w, fields), NextCell(s.pages[q]), w, fields);
  }

  lemma AllocAbs(s: Snap, s': Snap, c: nat, w: nat, fields: seq<nat>)
    requires Objs(s) <= s.hdr.Keys && Objs(s) <= s.body.Keys && Objs(s') == Objs(s) + {c} && c !in Objs(s)
    requires s'.hdr == s.hdr[c := w] && s'.body == s.body[c := fields] && Bits(w) == CLEAN
    requires s'.remembered == s.remembered && s'.prevFull == s.prevFull
    ensures Abs(s') == NewObject(Abs(s), c, [TypeOf(w)] + fields)
  {
    hide Bits, TypeOf, Objs;
    assert Abs(s').refs == Abs(s).refs[c := [TypeOf(w)] + fields];
    assert Abs(s').bits == Abs(s).bits[c := CLEAN];
  }
}
