/** The sweep of the pages: what it leaves of each page, released, skipped or walked, and how the pages
    swept so far relate to the heap as the mark phase left it. */
module GcSweep {
  import opened Wrappers
  import opened GcModel
  import opened GcPages
  import opened GcState
  import opened GcOps
  import opened GcMarking

  /** A page has been swept: survivors include every marked object and no young unmarked one, and are exactly the marked
      ones when this sweep or the one before is full; states have moved on; the flags are right for the next cycle. */
  ghost predicate PageSwept(hdr: map<nat, nat>, occ: set<nat>, hdr': map<nat, nat>, pg': Page, occ': set<nat>, full: bool, prevFull: bool) {
    && occ <= hdr.Keys && occ' <= hdr'.Keys && MarkedCells(hdr, occ) <= occ' <= occ
    && (full || prevFull ==> occ' == MarkedCells(hdr, occ)) && (forall o :: o in occ' ==> Bits(hdr[o]) != CLEAN)
    && (forall o :: o in occ' ==> hdr'[o] == WithBits(hdr[o], SweptBits(Bits(hdr[o]), full)))
    && (pg'.inUse ==> FlagsOk(hdr', pg', occ', full))
  }

  lemma SweptIgnoresOthers(hdr: map<nat, nat>, hdr2: map<nat, nat>, occ: set<nat>, hdr': map<nat, nat>, hdr2': map<nat, nat>, pg': Page, occ': set<nat>, full: bool, prevFull: bool)
    requires PageSwept(hdr, occ, hdr', pg', occ', full, prevFull) && hdr2.Keys == hdr.Keys && hdr2'.Keys == hdr'.Keys
    requires forall o :: o in occ ==> hdr2[o] == hdr[o]
    requires forall o :: o in occ' ==> hdr2'[o] == hdr'[o]
    ensures PageSwept(hdr2, occ, hdr2', pg', occ', full, prevFull)
  {
    hide Bits, WithBits;
    assert MarkedCells(hdr2, occ) == MarkedCells(hdr, occ);
  }

  // --- the three ways ----------------------------------------------------------------------------

  /** A page on which nothing was marked holds no survivor. */
  lemma ReleaseSwept(hdr: map<nat, nat>, pg: Page, occ: set<nat>, full: bool, prevFull: bool, pg': Page)
    requires occ <= hdr.Keys && MarkFlags(hdr, pg, occ, prevFull, []) && !pg.hasMarked && !pg'.inUse
    ensures PageSwept(hdr, occ, hdr, pg', {}, full, prevFull)
  {
    hide Bits, WithBits;
    assert MarkedCells(hdr, occ) == {};
  }

  lemma {:induction false} SubsetOfSameSize(a: set<nat>, b: set<nat>)
    requires a <= b && |a| == |b|
    ensures a == b
  {
    if x :| x in b && x !in a {
      assert a <= b - {x};
      SubsetSize(a, b - {x});
    }
  }

  /** Skipping a page with no young cell whose old count is settled loses nothing: after a full sweep
      the counts agree only when every object on the page is marked. */
  lemma SkipSwept(hdr: map<nat, nat>, pg: Page, occ: set<nat>, prevFull: bool)
    requires occ <= hdr.Keys && MarkFlags(hdr, pg, occ, prevFull, []) && pg.hasMarked && !pg.hasYoung
    requires !prevFull || pg.prevNold == pg.nold
    ensures PageSwept(hdr, occ, hdr, pg, occ, false, prevFull)
  {
    hide Bits, WithBits;
    if prevFull {
      SubsetOfSameSize(OldMarkedCells(hdr, occ), occ);
    }
    forall o | o in occ ensures hdr[o] == WithBits(hdr[o], SweptBits(Bits(hdr[o]), false)) {
      WithBitsSame(hdr[o]);
    }
  }

  /** The page after a walk. */
  function WalkedPage(pg: Page, fl: nat, nfree: nat, liveN: nat, full: bool): Page
    requires 0 < pg.osize && pg.start <= pg.bump && Used(pg) <= Cap(pg.osize)
  {
    var pg' := pg.(freelist := fl, nfree := nfree + (Cap(pg.osize) - Used(pg)), liveN := liveN, hasMarked := liveN > 0, hasYoung := false);
    if full then pg'.(prevNold := liveN, nold := 0) else pg'
  }

  lemma WalkSwept(hdr: map<nat, nat>, hdr': map<nat, nat>, cells: set<nat>, occ: set<nat>, pg': Page, full: bool, prevFull: bool)
    requires occ <= cells <= hdr.Keys && WalkedHeaders(hdr, hdr', cells, full)
    requires var left := MarkedCells(hdr, occ);
             && (pg'.hasMarked <==> |left| > 0) && (full ==> pg'.prevNold == |left| && pg'.nold == 0)
    ensures PageSwept(hdr, occ, hdr', pg', MarkedCells(hdr, occ), full, prevFull)
  {
    hide Bits, WithBits;
    var left := MarkedCells(hdr, occ);
    forall o | o in left ensures o in hdr' && Bits(hdr'[o]) == SweptBits(Bits(hdr[o]), full) {
      WithBitsSame(hdr[o]);
      WithBitsBits(hdr[o], SweptBits(Bits(hdr[o]), full));
    }
  }

  // --- the pages so far ---------------------------------------------------------------------------------

  ghost predicate InPages(pages: seq<Page>, n: nat, c: nat) {
    exists i :: 0 <= i < n && i < |pages| && Inside(pages[i], c)
  }

  ghost predicate SweptAt(m: Snap, s: Snap, i: nat, full: bool) {
    && i < |m.views| && i < |s.views| && i < |s.pages|
    && PageSwept(m.hdr, m.views[i].occ, s.hdr, s.pages[i], s.views[i].occ, full, m.prevFull)
  }

  /** Everything the page sweep leaves alone. */
  predicate SameRest(m: Snap, s: Snap) {
    && s.body == m.body && s.remembered == m.remembered && s.prevFull == m.prevFull && s.live == m.live && s.top == m.top
    && s.bigsYoung == m.bigsYoung && s.bigsOld == m.bigsOld && s.freeBigs == m.freeBigs && s.hdr.Keys == m.hdr.Keys
  }

  /** The first `n` pages of the marked heap `m` have been swept, giving `s`. */
  ghost predicate SweepInv(m: Snap, s: Snap, n: nat, full: bool) {
    && Sound(s) && SameRest(m, s) && n <= |s.pages| == |s.views| == |m.pages| == |m.views|
    && (forall i :: 0 <= i < |s.pages| ==> s.pages[i].start == m.pages[i].start && s.pages[i].osize == m.pages[i].osize)
    && (forall i :: 0 <= i < n ==> SweptAt(m, s, i, full))
    && (forall i :: n <= i < |s.pages| ==> s.pages[i] == m.pages[i] && s.views[i] == m.views[i])
    && (forall c :: c in s.hdr && !InPages(s.pages, n, c) ==> s.hdr[c] == m.hdr[c])
  }

  lemma SweepStart(m: Snap, full: bool)
    requires Sound(m)
    ensures SweepInv(m, m, 0, full)
  {
    hide TableOk, LayoutOk, PoolsOk;
  }

  /** `s'` replaces page `n` of `s` and rewrites headers inside it only. */
  ghost predicate OnePageChanged(s: Snap, s': Snap, n: nat) {
    && n < |s.pages| == |s'.pages| == |s.views| == |s'.views|
    && s'.pages == s.pages[n := s'.pages[n]] && s'.views == s.views[n := s'.views[n]]
    && s'.pages[n].start == s.pages[n].start && s'.pages[n].osize == s.pages[n].osize
    && SameRest(s, s') && forall c :: c in s.hdr && !Inside(s.pages[n], c) ==> s'.hdr[c] == s.hdr[c]
  }

  lemma SweepNext(m: Snap, s: Snap, s': Snap, n: nat, full: bool)
    requires SweepInv(m, s, n, full) && OnePageChanged(s, s', n)
    requires if s'.pages[n].inUse then PageOk(s'.hdr, s'.pages[n], s'.views[n]) else s'.views[n].occ == {}
    requires PoolsOk(s'.pages, s'.pools, s'.freePages)
    requires PageSwept(s.hdr, s.views[n].occ, s'.hdr, s'.pages[n], s'.views[n].occ, full, m.prevFull)
    ensures SweepInv(m, s', n + 1, full)
  {
    hide PageSwept, Sound, Inside, InPages;
    SweepSound(s, s', n, full, m.prevFull);
    forall i | 0 <= i < n + 1 ensures SweptAt(m, s', i, full) {
      SweptStays(m, s, s', n, i, full);
    }
    forall c | c in s'.hdr && !InPages(s'.pages, n + 1, c) ensures s'.hdr[c] == m.hdr[c] {
      OutsideMore(s.pages, s'.pages, n, c);
    }
  }

  lemma OutsideMore(pages: seq<Page>, pages': seq<Page>, n: nat, c: nat)
    requires n < |pages| == |pages'| && !InPages(pages', n + 1, c)
    requires forall i :: 0 <= i < |pages| ==> pages'[i].start == pages[i].start
    ensures !Inside(pages[n], c) && !InPages(pages, n, c)
  {
    if Inside(pages[n], c) { assert Inside(pages'[n], c); }
    if InPages(pages, n, c) {
      var i :| 0 <= i < n && i < |pages| && Inside(pages[i], c);
      assert Inside(pages'[i], c);
    }
  }

  lemma SweepSound(s: Snap, s': Snap, n: nat, full: bool, prevFull: bool)
    requires Sound(s) && OnePageChanged(s, s', n)
    requires if s'.pages[n].inUse then PageOk(s'.hdr, s'.pages[n], s'.views[n]) else s'.views[n].occ == {}
    requires PoolsOk(s'.pages, s'.pools, s'.freePages)
    requires PageSwept(s.hdr, s.views[n].occ, s'.hdr, s'.pages[n], s'.views[n].occ, full, prevFull)
    ensures Sound(s')
  {
    hide PageOk, PoolsOk, LayoutOk, Bits, WithBits, FlagsOk;
    TableReplace(s.hdr, s'.hdr, s.pages, s.views, s.top, n, s'.pages[n], s'.views[n]);
    LayoutSameStarts(AllBlocks(s), s.pages, s'.pages, s.top);
    ObjsReplace(s.views, n, s'.views[n]);
    OccIsObject(s, n);
    assert Objs(s') <= Objs(s);
  }

  lemma SweptStays(m: Snap, s: Snap, s': Snap, n: nat, i: nat, full: bool)
    requires SweepInv(m, s, n, full) && OnePageChanged(s, s', n) && Sound(s') && i <= n
    requires PageSwept(s.hdr, s.views[n].occ, s'.hdr, s'.pages[n], s'.views[n].occ, full, m.prevFull)
    ensures SweptAt(m, s', i, full)
  {
    hide PageSwept, Sound, InPages, Inside;
    if i < n {
      assert SweptAt(m, s, i, full);
      forall o | o in s.views[i].occ ensures o in s.hdr && s'.hdr[o] == s.hdr[o] {
        ObjectElsewhere(s, i, n, o);
      }
      SweptIgnoresOthers(m.hdr, m.hdr, m.views[i].occ, s.hdr, s'.hdr, s.pages[i], s.views[i].occ, full, m.prevFull);
    } else {
      forall o | o in s.views[n].occ ensures o in s.hdr && m.hdr[o] == s.hdr[o] {
        ObjectNotBefore(s, n, o);
      }
      SweptIgnoresOthers(s.hdr, m.hdr, m.views[n].occ, s'.hdr, s'.hdr, s'.pages[n], s'.views[n].occ, full, m.prevFull);
    }
  }

  lemma ObjectElsewhere(s: Snap, i: nat, n: nat, o: nat)
    requires Sound(s) && i < |s.pages| && n < |s.pages| && i != n && o in s.views[i].occ
    ensures o in s.hdr && !Inside(s.pages[n], o)
  {
    hide LayoutOk, PoolsOk, PageOk;
    OnPage(s, i, o);
    OccIsObject(s, i);
    assert i < n || n < i;
  }

  lemma ObjectNotBefore(s: Snap, n: nat, o: nat)
    requires Sound(s) && n < |s.pages| && o in s.views[n].occ
    ensures o in s.hdr && !InPages(s.pages, n, o)
  {
    hide Sound, Inside;
    SoundSizes(s);
    OccIsObject(s, n);
    if InPages(s.pages, n, o) {
      var i :| 0 <= i < n && i < |s.pages| && Inside(s.pages[i], o);
      ObjectElsewhere(s, n, i, o);
    }
  }

  // --- queues during the sweep ------------------------------------------------------------------------

  function Without(s: seq<nat>, x: nat): (r: seq<nat>)
    ensures forall y: nat :: y in r <==> y in s && y != x
  {
    if s == [] then []
    else
      assert s == s[..|s| - 1] + [s[|s| - 1]];
      if s[|s| - 1] == x then Without(s[..|s| - 1], x) else Without(s[..|s| - 1], x) + [s[|s| - 1]]
  }

  /** A page is released: its class no longer queues it. */
  lemma ReleasePools(pages: seq<Page>, pages': seq<Page>, pools: seq<Pool>, pools': seq<Pool>, freePages: seq<nat>, n: nat)
    requires PoolsOk(pages, pools, freePages) && n < |pages| == |pages'| && pages[n].inUse
    requires pages' == pages[n := pages'[n]] && !pages'[n].inUse
    requires |pools'| == |pools| && forall p :: 0 <= p < |pools| ==>
               pools'[p] == if pools[p].osize == pages[n].osize then pools[p].(pageQ := Without(pools[p].pageQ, n)) else pools[p]
    ensures PoolsOk(pages', pools', freePages + [n])
  {
    hide Without;
    forall p: nat, r: nat | p < |pools'| && r in pools'[p].pageQ ensures InClass(pages', r, pools'[p].osize) {
      assert r in pools[p].pageQ;
      assert InClass(pages, r, pools[p].osize);
    }
    forall i: nat | i < |pages'| && pages'[i].inUse && 0 < pages'[i].nfree ensures Queued(pools', i, pages'[i].osize) {
      assert Queued(pools, i, pages[i].osize);
      var k :| 0 <= k < |pools| && pools[k].osize == pages[i].osize && i in pools[k].pageQ;
      assert i in pools'[k].pageQ;
    }
    var free' := freePages + [n];
    assert n !in freePages;
    forall q: nat ensures q in free' <==> q < |pages'| && !pages'[q].inUse {
      assert q in free' <==> q in freePages || q == n;
    }
  }

  /** A page keeps its class; it has room only if it is queued, or had room before. */
  lemma WalkPools(pages: seq<Page>, pages': seq<Page>, pools: seq<Pool>, freePages: seq<nat>, n: nat)
    requires PoolsOk(pages, pools, freePages) && n < |pages| == |pages'| && pages[n].inUse
    requires pages' == pages[n := pages'[n]] && pages'[n].inUse && pages'[n].osize == pages[n].osize
    requires 0 < pages'[n].nfree ==> 0 < pages[n].nfree || Queued(pools, n, pages[n].osize)
    ensures PoolsOk(pages', pools, freePages)
  {
    forall p: nat, r: nat | p < |pools| && r in pools[p].pageQ ensures InClass(pages', r, pools[p].osize) {
      assert InClass(pages, r, pools[p].osize);
    }
    forall i: nat | i < |pages'| && pages'[i].inUse && 0 < pages'[i].nfree ensures Queued(pools, i, pages'[i].osize) {
      assert i != n ==> Queued(pools, i, pages[i].osize);
    }
  }
}
