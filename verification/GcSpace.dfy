/** Where allocation gets its space: queues of pages with room, released pages, fresh pages carved from
    the region, and big blocks, free or fresh. */
module GcSpace {
  import opened GcModel
  import opened GcPages
  import opened GcState
  import opened GcOps

  // --- queues -----------------------------------------------------------------------------------------

  /** The queues may change as long as they stay right for the pages. */
  lemma QueuesKeepValid(s: Snap, pools: seq<Pool>)
    requires Valid(s) && PoolsOk(s.pages, pools, s.freePages)
    ensures var s' := s.(pools := pools); Valid(s') && Abs(s') == Abs(s) && Objs(s') == Objs(s)
  {
    hide TableOk, LayoutOk, PoolsOk, FlagsOk, SumLive;
    SameFlags(s, s.(pools := pools));
  }

  /** A class whose queue is empty has no page with room. */
  lemma EmptyQueueIsFull(pages: seq<Page>, pools: seq<Pool>, freePages: seq<nat>, p: nat, q: nat)
    requires PoolsOk(pages, pools, freePages) && p < |pools| && pools[p].pageQ == []
    requires q < |pages| && pages[q].inUse && pages[q].osize == pools[p].osize
    ensures pages[q].nfree == 0
  {
    assert 0 < pages[q].nfree ==> Queued(pools, q, pages[q].osize);
  }

  lemma QueuedIsInClass(pages: seq<Page>, pools: seq<Pool>, freePages: seq<nat>, p: nat)
    requires PoolsOk(pages, pools, freePages) && p < |pools| && pools[p].pageQ != []
    ensures InClass(pages, pools[p].pageQ[|pools[p].pageQ| - 1], pools[p].osize)
  {
    assert pools[p].pageQ[|pools[p].pageQ| - 1] in pools[p].pageQ;
  }

  /** An exhausted page may leave its queue. */
  lemma PopQueue(pages: seq<Page>, pools: seq<Pool>, freePages: seq<nat>, p: nat)
    requires PoolsOk(pages, pools, freePages) && p < |pools| && pools[p].pageQ != []
    requires var q := pools[p].pageQ[|pools[p].pageQ| - 1]; q < |pages| && pages[q].nfree == 0
    ensures var pageQ: seq<nat> := pools[p].pageQ;
            PoolsOk(pages, pools[p := pools[p].(pageQ := pageQ[..|pageQ| - 1])], freePages)
  {
    hide PoolsOk;
    var pageQ: seq<nat> := pools[p].pageQ;
    assert pageQ == pageQ[..|pageQ| - 1] + [pageQ[|pageQ| - 1]];
    QueueShrinks(pages, pools, freePages, p, pageQ[..|pageQ| - 1]);
  }

  lemma QueueShrinks(pages: seq<Page>, pools: seq<Pool>, freePages: seq<nat>, p: nat, rest: seq<nat>)
    requires PoolsOk(pages, pools, freePages) && p < |pools|
    requires forall q :: q in rest ==> q in pools[p].pageQ
    requires forall q: nat :: q < |pages| && q in pools[p].pageQ && q !in rest ==> !pages[q].inUse || pages[q].nfree == 0
    ensures PoolsOk(pages, pools[p := pools[p].(pageQ := rest)], freePages)
  {
    var pools' := pools[p := pools[p].(pageQ := rest)];
    forall i: nat | i < |pages| && pages[i].inUse && 0 < pages[i].nfree ensures Queued(pools', i, pages[i].osize) {
      assert Queued(pools, i, pages[i].osize);
      var k :| 0 <= k < |pools| && pools[k].osize == pages[i].osize && i in pools[k].pageQ;
      assert i in pools'[k].pageQ;
    }
    forall k: nat, q: nat | k < |pools'| && q in pools'[k].pageQ ensures InClass(pages, q, pools'[k].osize) {
      assert q in pools[k].pageQ;
    }
  }

  /** The flags depend on headers, pages, views, old blocks and the last sweep. */
  lemma SameFlags(s: Snap, s': Snap)
    requires Valid(s) && Sound(s') && s'.live == s.live && s'.bigsYoung == s.bigsYoung
    requires s'.hdr == s.hdr && s'.pages == s.pages && s'.views == s.views && s'.bigsOld == s.bigsOld && s'.prevFull == s.prevFull
    ensures Valid(s')
  {
    hide Sound, FlagsOk;
  }

  lemma PushQueue(pages: seq<Page>, pools: seq<Pool>, freePages: seq<nat>, p: nat, q: nat)
    requires PoolsOk(pages, pools, freePages) && p < |pools| && InClass(pages, q, pools[p].osize)
    ensures PoolsOk(pages, pools[p := pools[p].(pageQ := pools[p].pageQ + [q])], freePages)
  {
    var pools' := pools[p := pools[p].(pageQ := pools[p].pageQ + [q])];
    forall i: nat | i < |pages| && pages[i].inUse && 0 < pages[i].nfree ensures Queued(pools', i, pages[i].osize) {
      assert Queued(pools, i, pages[i].osize);
      var k :| 0 <= k < |pools| && pools[k].osize == pages[i].osize && i in pools[k].pageQ;
      assert i in pools'[k].pageQ;
    }
    forall k: nat, r: nat | k < |pools'| && r in pools'[k].pageQ ensures InClass(pages, r, pools'[k].osize) {
      assert r in pools[k].pageQ || r == q;
    }
  }

  lemma NewPool(pages: seq<Page>, pools: seq<Pool>, freePages: seq<nat>, osize: nat)
    requires PoolsOk(pages, pools, freePages) && forall p :: 0 <= p < |pools| ==> pools[p].osize != osize
    ensures PoolsOk(pages, pools + [Pool(osize, [])], freePages)
  {
    var pools' := pools + [Pool(osize, [])];
    forall i: nat | i < |pages| && pages[i].inUse && 0 < pages[i].nfree ensures Queued(pools', i, pages[i].osize) {
      assert Queued(pools, i, pages[i].osize);
      var k :| 0 <= k < |pools| && pools[k].osize == pages[i].osize && i in pools[k].pageQ;
      assert pools'[k] == pools[k];
    }
    forall k: nat, r: nat | k < |pools'| && r in pools'[k].pageQ ensures InClass(pages, r, pools'[k].osize) {
      assert k < |pools| && r in pools[k].pageQ;
    }
  }

  // --- pages --------------------------------------------------------------------------------------------

  /** A released page joins a class: it is reset and queued there. */
  ghost function RecyclePage(s: Snap, p: nat): Snap
    requires p < |s.pools| && 0 < s.pools[p].osize && s.freePages != []
    requires s.freePages[|s.freePages| - 1] < |s.pages| == |s.views|
  {
    var q := s.freePages[|s.freePages| - 1];
    s.(pages := s.pages[q := ResetPage(s.pages[q].(osize := s.pools[p].osize))], views := s.views[q := View({}, [], 0)],
       freePages := s.freePages[..|s.freePages| - 1],
       pools := s.pools[p := s.pools[p].(pageQ := s.pools[p].pageQ + [q])])
  }

  lemma RecyclePools(s: Snap, p: nat, q: nat)
    requires PoolsOk(s.pages, s.pools, s.freePages) && p < |s.pools| && 0 < s.pools[p].osize && s.freePages != []
    requires q == s.freePages[|s.freePages| - 1] && |s.views| == |s.pages|
    ensures q < |s.pages| && !s.pages[q].inUse
    ensures var s' := RecyclePage(s, p); PoolsOk(s'.pages, s'.pools, s'.freePages)
  {
    assert q in s.freePages;
    var pools, s' := s.pools, RecyclePage(s, p);
    FreeListPop(s.freePages);
    forall i: nat | i < |s'.pages| && s'.pages[i].inUse && 0 < s'.pages[i].nfree ensures Queued(s'.pools, i, s'.pages[i].osize) {
      if i == q {
        assert q in s'.pools[p].pageQ;
      } else {
        assert Queued(pools, i, s.pages[i].osize);
        var k :| 0 <= k < |pools| && pools[k].osize == s.pages[i].osize && i in pools[k].pageQ;
        assert i in s'.pools[k].pageQ;
      }
    }
    forall k: nat, r: nat | k < |s'.pools| && r in s'.pools[k].pageQ ensures InClass(s'.pages, r, s'.pools[k].osize) {
      if !(k == p && r == q) {
        assert r in pools[k].pageQ;
        assert InClass(s.pages, r, pools[k].osize);
      }
    }
  }

  lemma FreeListPop(s: seq<nat>)
    requires s != [] && NoDuplicates(s)
    ensures var rest := s[..|s| - 1]; NoDuplicates(rest) && forall x: nat :: x in rest <==> x in s && x != s[|s| - 1]
  {
    assert s == s[..|s| - 1] + [s[|s| - 1]];
  }

  lemma RecycleSound(s: Snap, p: nat)
    requires Sound(s) && p < |s.pools| && GoodSize(s.pools[p].osize) && s.freePages != []
    ensures s.freePages[|s.freePages| - 1] < |s.pages|
    ensures var s' := RecyclePage(s, p); Sound(s') && Objs(s') == Objs(s)
  {
    hide PageOk, LayoutOk, PoolsOk, SumLive, ResetPage;
    var q := s.freePages[|s.freePages| - 1];
    RecyclePools(s, p, q);
    var pg, s' := s.pages[q].(osize := s.pools[p].osize), RecyclePage(s, p);
    ResetPageOk(s.hdr, pg);
    ResetKeeps(pg);
    TableReplace(s.hdr, s.hdr, s.pages, s.views, s.top, q, s'.pages[q], s'.views[q]);
    LayoutSameStarts(AllBlocks(s), s.pages, s'.pages, s.top);
    ObjsReplace(s.views, q, s'.views[q]);
  }

  lemma ResetKeeps(pg: Page)
    requires 0 < pg.osize
    ensures var r := ResetPage(pg); r.start == pg.start && r.osize == pg.osize && r.inUse
  {
  }

  lemma RecycleCounted(s: Snap, p: nat)
    requires Sound(s) && Counted(s) && p < |s.pools| && GoodSize(s.pools[p].osize) && s.freePages != []
    ensures s.freePages[|s.freePages| - 1] < |s.pages| && Counted(RecyclePage(s, p))
  {
    hide PageOk, LayoutOk, SumLive;
    var q := s.freePages[|s.freePages| - 1];
    assert q in s.freePages;
    SumReplace(s.views, q, View({}, [], 0));
  }

  lemma RecycleKeepsValid(s: Snap, p: nat)
    requires Valid(s) && p < |s.pools| && GoodSize(s.pools[p].osize) && s.freePages != []
    ensures s.freePages[|s.freePages| - 1] < |s.pages| == |s.views|
    ensures var s' := RecyclePage(s, p);
            Valid(s') && Abs(s') == Abs(s) && Objs(s') == Objs(s) && CanTake(s', s.freePages[|s.freePages| - 1])
  {
    hide PageOk, TableOk, LayoutOk, PoolsOk, SumLive, Objs;
    RecycleSound(s, p);
    ResetPageOk(s.hdr, s.pages[s.freePages[|s.freePages| - 1]].(osize := s.pools[p].osize, start := 8));
    var s' := RecyclePage(s, p);
    RecycleCounted(s, p);
    forall i | 0 <= i < |s'.pages| && s'.pages[i].inUse
      ensures PageFlags(s', i)
    {
      OccInHdr(s, i);
      OccInHdr(s', i);
    }
  }

  /** A fresh page carved from the region, queued for its class. */
  ghost function FreshPage(s: Snap, p: nat): Snap
    requires p < |s.pools| && 0 < s.pools[p].osize
  {
    var osize := s.pools[p].osize;
    var pg := Page(s.top, osize, 0, 0, 0, false, false, 0, 0, true, s.top);
    s.(pages := s.pages + [ResetPage(pg)], views := s.views + [View({}, [], 0)], top := s.top + PAGE_SIZE,
       pools := s.pools[p := s.pools[p].(pageQ := s.pools[p].pageQ + [|s.pages|])])
  }

  lemma FreshPools(s: Snap, p: nat)
    requires PoolsOk(s.pages, s.pools, s.freePages) && p < |s.pools| && 0 < s.pools[p].osize
    ensures var s' := FreshPage(s, p); PoolsOk(s'.pages, s'.pools, s'.freePages)
  {
    var pools, s', q := s.pools, FreshPage(s, p), |s.pages|;
    forall i: nat | i < |s'.pages| && s'.pages[i].inUse && 0 < s'.pages[i].nfree ensures Queued(s'.pools, i, s'.pages[i].osize) {
      if i == q {
        assert q in s'.pools[p].pageQ;
      } else {
        assert Queued(pools, i, s.pages[i].osize);
        var k :| 0 <= k < |pools| && pools[k].osize == s.pages[i].osize && i in pools[k].pageQ;
        assert i in s'.pools[k].pageQ;
      }
    }
    forall k: nat, r: nat | k < |s'.pools| && r in s'.pools[k].pageQ ensures InClass(s'.pages, r, s'.pools[k].osize) {
      if !(k == p && r == q) {
        assert r in pools[k].pageQ;
        assert InClass(s.pages, r, pools[k].osize);
      }
    }
  }

  lemma FreshTable(s: Snap, p: nat)
    requires TableOk(s.hdr, s.pages, s.views, s.top) && s.top % 8 == 0 && 8 <= s.top && p < |s.pools| && GoodSize(s.pools[p].osize)
    ensures var s' := FreshPage(s, p); TableOk(s'.hdr, s'.pages, s'.views, s'.top)
  {
    hide PageOk, ResetPage, GoodSize;
    GoodIsPositive(s.pools[p].osize);
    var pg := Page(s.top, s.pools[p].osize, 0, 0, 0, false, false, 0, 0, true, s.top);
    ResetPageOk(s.hdr, pg);
    ResetKeeps(pg);
    var s' := FreshPage(s, p);
    forall i | 0 <= i < |s'.pages| ensures PageInTable(s'.pages[i], s'.top) {
      assert i < |s.pages| ==> s'.pages[i] == s.pages[i] && PageInTable(s.pages[i], s.top);
    }
    forall i | 0 <= i < |s'.pages| && s'.pages[i].inUse ensures PageOk(s'.hdr, s'.pages[i], s'.views[i]) {
      assert i < |s.pages| ==> s'.pages[i] == s.pages[i] && s'.views[i] == s.views[i];
    }
  }

  lemma GoodIsPositive(osize: nat)
    requires GoodSize(osize)
    ensures 0 < osize
  {
  }

  lemma FreshLayout(all: multiset<Block>, pages: seq<Page>, pg: Page, top: nat)
    requires LayoutOk(all, pages, top) && pg.start == top
    ensures LayoutOk(all, pages + [pg], top + PAGE_SIZE)
  {
    forall b | b in all ensures BlockOk(b, pages + [pg], top + PAGE_SIZE) {
      assert BlockOk(b, pages, top);
    }
  }

  lemma AppendEmptyView(views: seq<View>)
    ensures PageObjs(views + [View({}, [], 0)]) == PageObjs(views) && SumLive(views + [View({}, [], 0)]) == SumLive(views)
  {
    var views' := views + [View({}, [], 0)];
    assert views'[..|views'| - 1] == views;
    forall o: nat ensures o in PageObjs(views') <==> o in PageObjs(views) {
      if o in PageObjs(views) {
        var i :| 0 <= i < |views| && o in views[i].occ;
        assert o in views'[i].occ;
      }
      if o in PageObjs(views') {
        var i :| 0 <= i < |views'| && o in views'[i].occ;
        assert o in views[i].occ;
      }
    }
  }

  lemma FreshKeepsValid(s: Snap, p: nat)
    requires Valid(s) && p < |s.pools| && GoodSize(s.pools[p].osize)
    ensures var s' := FreshPage(s, p); Valid(s') && Abs(s') == Abs(s) && Objs(s') == Objs(s) && CanTake(s', |s.pages|)
  {
    hide PageOk, TableOk, LayoutOk, PoolsOk, SumLive;
    FreshTable(s, p);
    FreshPools(s, p);
    var pg := Page(s.top, s.pools[p].osize, 0, 0, 0, false, false, 0, 0, true, s.top);
    ResetPageOk(s.hdr, pg);
    FreshLayout(AllBlocks(s), s.pages, ResetPage(pg), s.top);
    AppendEmptyView(s.views);
    var s' := FreshPage(s, p);
    forall i | 0 <= i < |s'.pages| && s'.pages[i].inUse
      ensures PageFlags(s', i)
    {
      if i < |s.pages| { OccInHdr(s, i); }
    }
  }

  // --- big blocks ------------------------------------------------------------------------------------------

  lemma LayoutAdd(all: multiset<Block>, pages: seq<Page>, top: nat, b: Block, top': nat)
    requires LayoutOk(all, pages, top) && top <= top' && BlockOk(b, pages, top')
    requires forall a :: a in all ==> Apart(a, b)
    ensures LayoutOk(all + multiset{b}, pages, top')
  {
    forall a | a in all + multiset{b} ensures BlockOk(a, pages, top') && (all + multiset{b})[a] == 1 {
      if a in all { assert BlockOk(a, pages, top) && all[a] == 1 && Apart(a, b); }
    }
  }

  lemma LayoutRemove(all: multiset<Block>, pages: seq<Page>, top: nat, b: Block)
    requires LayoutOk(all, pages, top) && b in all
    ensures LayoutOk(all - multiset{b}, pages, top) && forall a :: a in all - multiset{b} ==> Apart(a, b)
  {
    assert all[b] == 1;
    forall a | a in all - multiset{b} ensures a in all && a != b {}
  }

  /** Removing a free block by moving the last one into its place. */
  function SwapRemove(bs: seq<Block>, i: nat): seq<Block>
    requires i < |bs|
  {
    bs[i := bs[|bs| - 1]][..|bs| - 1]
  }

  lemma SwapRemoveMultiset(bs: seq<Block>, i: nat)
    requires i < |bs|
    ensures multiset(SwapRemove(bs, i)) == multiset(bs) - multiset{bs[i]}
  {
    var n, moved := |bs| - 1, bs[i := bs[|bs| - 1]];
    assert moved == moved[..n] + [bs[n]];
    assert multiset(moved) == multiset(bs) - multiset{bs[i]} + multiset{bs[n]};
    assert multiset(moved) == multiset(moved[..n]) + multiset{bs[n]};
    assert bs[i] in bs && multiset{bs[i]} <= multiset(bs);
    assert multiset(moved[..n]) == (multiset(moved[..n]) + multiset{bs[n]}) - multiset{bs[n]};
    assert multiset(bs) - multiset{bs[i]} == (multiset(bs) - multiset{bs[i]} + multiset{bs[n]}) - multiset{bs[n]};
  }

  /** The big object at `off`, of `size` bytes, is recorded as young and given a header and fields. */
  ghost function AllocBig(s: Snap, off: nat, size: nat, freeBigs: seq<Block>, top: nat, w: nat, fields: seq<nat>): Snap {
    s.(hdr := s.hdr[off := w], body := s.body[off := fields], freeBigs := freeBigs, top := top,
       bigsYoung := s.bigsYoung + [(off, size)], live := s.live + 1)
  }

  /** Room for a big object: a block apart from every page and every other block. */
  ghost predicate Room(s: Snap, off: nat, size: nat, freeBigs: seq<Block>, top: nat) {
    && s.top <= top && top % 8 == 0
    && LayoutOk(multiset(s.bigsYoung) + multiset(s.bigsOld) + multiset(freeBigs) + multiset{(off, size)}, s.pages, top)
  }

  lemma RoomInFreeBlock(s: Snap, i: nat, size: nat)
    requires Sound(s) && i < |s.freeBigs| && 0 < size <= s.freeBigs[i].1
    ensures Room(s, s.freeBigs[i].0, size, SwapRemove(s.freeBigs, i), s.top)
  {
    hide LayoutOk, TableOk, PoolsOk, SwapRemove;
    var b, all := s.freeBigs[i], AllBlocks(s);
    assert b in multiset(s.freeBigs);
    SwapRemoveMultiset(s.freeBigs, i);
    LayoutRemove(all, s.pages, s.top, b);
    ShrunkBlock(all, s.pages, s.top, b, (b.0, size));
    LayoutAdd(all - multiset{b}, s.pages, s.top, (b.0, size), s.top);
    assert multiset(s.bigsYoung) + multiset(s.bigsOld) + multiset(SwapRemove(s.freeBigs, i)) == all - multiset{b};
  }

  lemma ShrunkBlock(all: multiset<Block>, pages: seq<Page>, top: nat, b: Block, b': Block)
    requires LayoutOk(all, pages, top) && b in all && b'.0 == b.0 && 0 < b'.1 <= b.1
    ensures BlockOk(b', pages, top) && forall a :: Apart(a, b) ==> Apart(a, b')
  {
    assert BlockOk(b, pages, top);
  }

  lemma AboveAll(s: Snap, size: nat)
    requires Sound(s) && 0 < size && size % 8 == 0
    ensures BlockOk((s.top, size), s.pages, s.top + size) && forall a :: a in AllBlocks(s) ==> Apart(a, (s.top, size))
  {
    hide PoolsOk;
    forall a | a in AllBlocks(s) ensures Apart(a, (s.top, size)) {
      assert BlockOk(a, s.pages, s.top);
    }
    forall i | 0 <= i < |s.pages| ensures s.pages[i].start + PAGE_SIZE <= s.top {
      assert PageInTable(s.pages[i], s.top);
    }
  }

  lemma RoomInRegion(s: Snap, size: nat)
    requires Sound(s) && 0 < size && size % 8 == 0
    ensures Room(s, s.top, size, s.freeBigs, s.top + size)
  {
    hide PoolsOk, TableOk, LayoutOk, BlockOk;
    AboveAll(s, size);
    LayoutAdd(AllBlocks(s), s.pages, s.top, (s.top, size), s.top + size);
  }

  lemma OffsAppend(bs: seq<Block>, b: Block)
    ensures Offs(bs + [b]) == Offs(bs) + {b.0}
  {
    var bs' := bs + [b];
    forall o: nat ensures o in Offs(bs') <==> o in Offs(bs) + {b.0} {
      if o in Offs(bs) {
        var i :| 0 <= i < |bs| && bs[i].0 == o;
        assert bs'[i].0 == o;
      }
      if o == b.0 { assert bs'[|bs|].0 == o; }
      if o in Offs(bs') {
        var i :| 0 <= i < |bs'| && bs'[i].0 == o;
        assert i < |bs| ==> bs[i].0 == o;
      }
    }
  }

  /** A block with room for an object is off every page and no object has its offset. */
  lemma RoomIsNew(s: Snap, off: nat, size: nat, freeBigs: seq<Block>, top: nat)
    requires Sound(s) && Room(s, off, size, freeBigs, top)
    ensures BlockOk((off, size), s.pages, top) && off !in Objs(s) && off != 0 && off % 8 == 0
  {
    hide TableOk, PoolsOk;
    var b := (off, size);
    var all := multiset(s.bigsYoung) + multiset(s.bigsOld) + multiset(freeBigs) + multiset{b};
    assert b in all && all[b] == 1;
    if off in PageObjs(s.views) {
      var i :| 0 <= i < |s.views| && off in s.views[i].occ;
      OnPage(s, i, off);
    } else if off in Objs(s) {
      var a := BigBlock(s, off);
      BlockIsAlone(multiset(s.bigsYoung) + multiset(s.bigsOld) + multiset(freeBigs), a, b, s.pages, top);
    }
  }

  lemma BlockIsAlone(rest: multiset<Block>, a: Block, b: Block, pages: seq<Page>, top: nat)
    requires LayoutOk(rest + multiset{b}, pages, top) && a in rest
    ensures a.0 != b.0
  {
    var all := rest + multiset{b};
    assert a in all && b in all && all[b] == rest[b] + 1;
    assert BlockOk(a, pages, top) && BlockOk(b, pages, top);
    assert a != b && Apart(a, b);
  }

  lemma AllocBigSound(s: Snap, off: nat, size: nat, freeBigs: seq<Block>, top: nat, w: nat, fields: seq<nat>)
    requires Sound(s) && Room(s, off, size, freeBigs, top)
    ensures var s' := AllocBig(s, off, size, freeBigs, top, w, fields); Sound(s') && Objs(s') == Objs(s) + {off}
  {
    hide LayoutOk, PoolsOk, PageOk, SumLive;
    RoomIsNew(s, off, size, freeBigs, top);
    var s' := AllocBig(s, off, size, freeBigs, top, w, fields);
    OffsAppend(s.bigsYoung, (off, size));
    assert AllBlocks(s') == multiset(s.bigsYoung) + multiset(s.bigsOld) + multiset(freeBigs) + multiset{(off, size)};
    forall i | 0 <= i < |s.pages| ensures PageInTable(s.pages[i], top) {
      assert PageInTable(s.pages[i], s.top);
    }
    forall i | 0 <= i < |s.pages| && s.pages[i].inUse ensures PageOk(s'.hdr, s.pages[i], s.views[i]) {
      OffPageIsNotFree(s, off, size, top, i);
      PageIgnoresOthers(s.hdr, s'.hdr, s.pages[i], s.views[i]);
    }
  }

  lemma OffPageIsNotFree(s: Snap, off: nat, size: nat, top: nat, i: nat)
    requires Sound(s) && BlockOk((off, size), s.pages, top) && i < |s.pages| && s.pages[i].inUse
    ensures off !in s.views[i].free
  {
    hide LayoutOk, PoolsOk, PageOk;
    if off in s.views[i].free {
      OnPage(s, i, off);
    }
  }

  lemma AllocBigKeepsValid(s: Snap, off: nat, size: nat, freeBigs: seq<Block>, top: nat, w: nat, fields: seq<nat>)
    requires Valid(s) && Room(s, off, size, freeBigs, top) && Bits(w) == CLEAN
    ensures off !in Objs(s) && off != 0
    ensures var s' := AllocBig(s, off, size, freeBigs, top, w, fields);
            Valid(s') && Objs(s') == Objs(s) + {off} && Abs(s') == NewObject(Abs(s), off, [TypeOf(w)] + fields)
  {
    hide TableOk, LayoutOk, PoolsOk, SumLive, Bits, TypeOf, Objs, Room;
    RoomIsNew(s, off, size, freeBigs, top);
    AllocBigSound(s, off, size, freeBigs, top, w, fields);
    var s' := AllocBig(s, off, size, freeBigs, top, w, fields);
    AllocAbs(s, s', off, w, fields);
    forall i | 0 <= i < |s'.pages| && s'.pages[i].inUse
      ensures PageFlags(s', i)
    {
      OccInHdr(s, i);
      OccIsObject(s, i);
      assert PageFlags(s, i);
    }
    forall o | o in Offs(s'.bigsOld) ensures o in s'.hdr && HasMark(Bits(s'.hdr[o])) {
      OldIsObject(s, o);
    }
  }
}
