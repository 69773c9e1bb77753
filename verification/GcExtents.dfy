/** The bytes of each object: its cell on a page, or its big block.  Distinct objects' bytes lie apart, inside the page or
    block they are in, and meet nothing that is free. */
module GcExtents {
  import opened GcModel
  import opened GcPages
  import opened GcState

  ghost predicate OnThePage(s: Snap, i: nat, o: nat) {
    i < |s.pages| && i < |s.views| && o in s.views[i].occ
  }

  ghost predicate IsBig(s: Snap, b: Block) {
    b in multiset(s.bigsYoung) + multiset(s.bigsOld)
  }

  /** How many bytes the object at `o` has, header included. */
  ghost function Extent(s: Snap, o: nat): nat {
    if exists i: nat :: OnThePage(s, i, o) then (var i: nat :| OnThePage(s, i, o); s.pages[i].osize)
    else if exists n: nat :: IsBig(s, (o, n)) then (var n: nat :| IsBig(s, (o, n)); n)
    else 0
  }

  /** `n` bytes from `a` and `m` bytes from `b` have none in common. */
  predicate Disjoint(a: nat, n: nat, b: nat, m: nat) { a + n <= b || b + m <= a }

  lemma BigIsListed(s: Snap, b: Block)
    requires IsBig(s, b)
    ensures b.0 in Offs(s.bigsYoung) || b.0 in Offs(s.bigsOld)
    ensures b in AllBlocks(s)
  {
    if b in multiset(s.bigsYoung) {
      var i :| 0 <= i < |s.bigsYoung| && s.bigsYoung[i] == b;
      assert s.bigsYoung[i].0 == b.0;
    } else {
      var i :| 0 <= i < |s.bigsOld| && s.bigsOld[i] == b;
      assert s.bigsOld[i].0 == b.0;
    }
  }

  lemma ExtentOnPage(s: Snap, i: nat, o: nat)
    requires Sound(s) && OnThePage(s, i, o)
    ensures Extent(s, o) == s.pages[i].osize
  {
    hide TableOk, LayoutOk, PoolsOk;
    forall j: nat | OnThePage(s, j, o) ensures j == i { OnePage(s, i, j, o); }
  }

  /** Used or free, a block is known by its offset. */
  lemma OneBlock(s: Snap, a: Block, b: Block)
    requires Sound(s) && a in AllBlocks(s) && b in AllBlocks(s) && a.0 == b.0
    ensures a == b
  {
    hide TableOk, PoolsOk;
    assert BlockOk(a, s.pages, s.top) && BlockOk(b, s.pages, s.top);
    assert a != b ==> Apart(a, b);
  }

  lemma ExtentOfBig(s: Snap, b: Block)
    requires Sound(s) && IsBig(s, b)
    ensures Extent(s, b.0) == b.1
  {
    hide TableOk, LayoutOk, PoolsOk, AllBlocks;
    BigIsListed(s, b);
    forall i: nat | OnThePage(s, i, b.0) ensures false { BigOffPage(s, b.0, i); }
    forall n: nat | IsBig(s, (b.0, n)) ensures n == b.1 {
      BigIsListed(s, (b.0, n));
      OneBlock(s, (b.0, n), b);
    }
    assert IsBig(s, (b.0, b.1));
  }

  /** An object has a cell or a block. */
  lemma PlaceOf(s: Snap, o: nat) returns (i: nat, n: nat)
    requires Sound(s) && o in Objs(s)
    ensures n == Extent(s, o) && (OnThePage(s, i, o) || IsBig(s, (o, n)))
    ensures OnThePage(s, i, o) ==> s.pages[i].osize == n
  {
    hide TableOk, LayoutOk, PoolsOk, Extent;
    if o in PageObjs(s.views) {
      i :| 0 <= i < |s.views| && o in s.views[i].occ;
      ExtentOnPage(s, i, o);
      n := s.pages[i].osize;
    } else {
      var b := BigBlock(s, o);
      ExtentOfBig(s, b);
      i, n := |s.pages|, b.1;
      assert b == (o, n);
    }
  }

  lemma CellIndex(hdr: map<nat, nat>, pg: Page, v: View, c: nat) returns (k: nat)
    requires PageOk(hdr, pg, v) && (c in v.occ || c in v.free)
    ensures k < v.used <= Cap(pg.osize) && c == Cell(pg.start, pg.osize, k) && pg.bump == Cell(pg.start, pg.osize, v.used)
  {
    hide Cell, Cap, LinkedList;
    SplitMembers(v.occ, v.free, Cells(pg.start, pg.osize, v.used), c);
    k :| 0 <= k < v.used && c == Cell(pg.start, pg.osize, k);
  }

  /** A used cell lies below the cursor. */
  lemma CellPlace(hdr: map<nat, nat>, pg: Page, v: View, c: nat)
    requires PageOk(hdr, pg, v) && (c in v.occ || c in v.free)
    ensures 0 < pg.osize && pg.start <= c && c + pg.osize <= pg.bump <= pg.start + PAGE_SIZE
  {
    hide Cell, Cap, LinkedList, Split, Cells;
    var k := CellIndex(hdr, pg, v, c);
    CellInPage(hdr, pg, v, c);
    CellNext(pg.start, pg.osize, v.used - 1);
    CellFits(pg.start, pg.osize, v.used - 1);
    if k < v.used - 1 { CellOrder(pg.start, pg.osize, k, v.used - 1); }
  }

  lemma CellNext(start: nat, osize: nat, k: nat)
    ensures Cell(start, osize, k) + osize == Cell(start, osize, k + 1)
  {
  }

  lemma CellsApart(hdr: map<nat, nat>, pg: Page, v: View, c: nat, d: nat)
    requires PageOk(hdr, pg, v) && (c in v.occ || c in v.free) && (d in v.occ || d in v.free) && c != d
    ensures Disjoint(c, pg.osize, d, pg.osize)
  {
    hide Cell, Cap, PageOk;
    var k := CellIndex(hdr, pg, v, c);
    var l := CellIndex(hdr, pg, v, d);
    if k < l { CellOrder(pg.start, pg.osize, k, l); }
    if l < k { CellOrder(pg.start, pg.osize, l, k); }
  }

  /** An object's bytes are in the region, and with every page either among the cells in use of that page or clear of it. */
  lemma ExtentInside(s: Snap, o: nat)
    requires Sound(s) && o in Objs(s)
    ensures 0 < Extent(s, o) && o + Extent(s, o) <= s.top
    ensures forall i: nat :: i < |s.pages| && OnThePage(s, i, o) ==>
              s.pages[i].inUse && s.pages[i].start <= o && o + Extent(s, o) <= s.pages[i].bump <= s.pages[i].start + PAGE_SIZE
    ensures forall i: nat :: i < |s.pages| && !OnThePage(s, i, o) ==> Disjoint(o, Extent(s, o), s.pages[i].start, PAGE_SIZE)
  {
    hide LayoutOk, PoolsOk, PageOk, Extent;
    var j, n := PlaceOf(s, o);
    if OnThePage(s, j, o) {
      OnPage(s, j, o);
      CellPlace(s.hdr, s.pages[j], s.views[j], o);
      assert PageInTable(s.pages[j], s.top);
      forall i: nat | i < |s.pages| && OnThePage(s, i, o) ensures i == j { OnePage(s, i, j, o); }
      forall i: nat | i < |s.pages| && i != j ensures Disjoint(o, n, s.pages[i].start, PAGE_SIZE) {
        assert i < j || j < i;
      }
    } else {
      BigIsListed(s, (o, n));
      BlockPlace(s, (o, n));
      forall i: nat | i < |s.pages| && OnThePage(s, i, o) ensures false { BigOffPage(s, o, i); }
    }
  }

  lemma BlockPlace(s: Snap, b: Block)
    requires Sound(s) && b in AllBlocks(s)
    ensures 0 < b.1 && b.0 + b.1 <= s.top && forall i: nat :: i < |s.pages| ==> Disjoint(b.0, b.1, s.pages[i].start, PAGE_SIZE)
  {
    hide TableOk, PoolsOk;
    assert BlockOk(b, s.pages, s.top);
  }

  lemma BlocksApart(s: Snap, a: Block, b: Block)
    requires Sound(s) && a in AllBlocks(s) && b in AllBlocks(s) && a != b
    ensures Disjoint(a.0, a.1, b.0, b.1)
  {
    hide TableOk, PoolsOk;
    assert Apart(a, b);
  }

  /** The bytes of distinct objects lie apart. */
  lemma ExtentsApart(s: Snap, o: nat, p: nat)
    requires Sound(s) && o in Objs(s) && p in Objs(s) && o != p
    ensures Disjoint(o, Extent(s, o), p, Extent(s, p))
  {
    hide LayoutOk, PoolsOk, PageOk, Extent, AllBlocks;
    var i, n := PlaceOf(s, o);
    var j, m := PlaceOf(s, p);
    ExtentInside(s, o);
    ExtentInside(s, p);
    if OnThePage(s, i, o) && OnThePage(s, i, p) {
      ExtentOnPage(s, i, p);
      OnPage(s, i, o);
      CellsApart(s.hdr, s.pages[i], s.views[i], o, p);
    } else if !OnThePage(s, i, o) && !OnThePage(s, j, p) {
      BigIsListed(s, (o, n));
      BigIsListed(s, (p, m));
      BlocksApart(s, (o, n), (p, m));
    } else if OnThePage(s, i, o) {
      assert Disjoint(p, m, s.pages[i].start, PAGE_SIZE);
    } else {
      BigIsListed(s, (o, n));
      BigOffPage(s, o, j);
      assert Disjoint(o, n, s.pages[j].start, PAGE_SIZE);
    }
  }

  /** No free cell and no free block shares a byte with an object. */
  lemma ExtentMeetsNoFree(s: Snap, o: nat)
    requires Sound(s) && o in Objs(s)
    ensures forall i: nat, c :: i < |s.pages| && i < |s.views| && s.pages[i].inUse && c in s.views[i].free ==> Disjoint(o, Extent(s, o), c, s.pages[i].osize)
    ensures forall i :: 0 <= i < |s.freeBigs| ==> Disjoint(o, Extent(s, o), s.freeBigs[i].0, s.freeBigs[i].1)
  {
    hide LayoutOk, PoolsOk, PageOk, Extent, AllBlocks, Objs;
    var j, n := PlaceOf(s, o);
    ExtentInside(s, o);
    forall i: nat, c | i < |s.pages| && s.pages[i].inUse && c in s.views[i].free ensures Disjoint(o, n, c, s.pages[i].osize) {
      FreeCellOnPage(s.hdr, s.pages[i], s.views[i], c);
      CellPlace(s.hdr, s.pages[i], s.views[i], c);
      if OnThePage(s, i, o) {
        ExtentOnPage(s, i, o);
        CellsApart(s.hdr, s.pages[i], s.views[i], o, c);
      }
    }
    forall i | 0 <= i < |s.freeBigs| ensures Disjoint(o, n, s.freeBigs[i].0, s.freeBigs[i].1) {
      FreeBlockApart(s, o, n, j, s.freeBigs[i], i);
    }
  }

  lemma FreeBlockApart(s: Snap, o: nat, n: nat, j: nat, b: Block, i: nat)
    requires Sound(s) && i < |s.freeBigs| && s.freeBigs[i] == b && (OnThePage(s, j, o) || IsBig(s, (o, n)))
    requires OnThePage(s, j, o) ==> s.pages[j].start <= o && o + n <= s.pages[j].start + PAGE_SIZE
    ensures Disjoint(o, n, b.0, b.1)
  {
    hide TableOk, PoolsOk;
    assert b in multiset(s.freeBigs) && b in AllBlocks(s);
    BlockPlace(s, b);
    if !OnThePage(s, j, o) {
      BigIsListed(s, (o, n));
      assert AllBlocks(s)[b] == 1;
      assert (o, n) == b ==> AllBlocks(s)[b] >= 2;
      BlocksApart(s, (o, n), b);
    }
  }

  // --- objects keep their bytes ---------------------------------------------------------------------------

  /** Every cell and big block with an object in `s` is one of the same size in `s'`. */
  ghost predicate KeepsPlaces(s: Snap, s': Snap) {
    && (forall i: nat, o :: OnThePage(s, i, o) ==> OnThePage(s', i, o) && s'.pages[i].osize == s.pages[i].osize)
    && (forall b :: IsBig(s, b) ==> IsBig(s', b))
  }

  lemma KeepsExtent(s: Snap, s': Snap, o: nat)
    requires Sound(s) && Sound(s') && KeepsPlaces(s, s') && o in Objs(s)
    ensures Extent(s', o) == Extent(s, o)
  {
    hide Sound, Extent, Objs;
    var i, n := PlaceOf(s, o);
    if OnThePage(s, i, o) {
      ExtentOnPage(s', i, o);
    } else {
      ExtentOfBig(s', (o, n));
    }
  }

  /** The pages start where they started, with cells of the same size. */
  ghost predicate SameGeometry(pages: seq<Page>, pages': seq<Page>) {
    |pages'| == |pages| && forall i :: 0 <= i < |pages| ==> pages'[i].start == pages[i].start && pages'[i].osize == pages[i].osize
  }

  /** What is left of a heap on the same pages and blocks has the bytes it had. */
  lemma LeftKeepsExtent(s: Snap, s': Snap, o: nat)
    requires Sound(s) && Sound(s') && SameGeometry(s.pages, s'.pages) && o in Objs(s) && o in Objs(s')
    requires forall b :: IsBig(s', b) ==> b in AllBlocks(s)
    ensures Extent(s', o) == Extent(s, o)
  {
    hide LayoutOk, PoolsOk, PageOk, Extent, Objs, AllBlocks;
    var i, n := PlaceOf(s, o);
    var j, m := PlaceOf(s', o);
    if OnThePage(s, i, o) {
      OnPage(s, i, o);
      if OnThePage(s', j, o) {
        OnPage(s', j, o);
        assert i < j || j < i || i == j;
      } else {
        BigIsListed(s', (o, m));
        BigOffPage(s', o, i);
      }
    } else {
      BigIsListed(s, (o, n));
      if OnThePage(s', j, o) {
        OnPage(s', j, o);
        BigOffPage(s, o, j);
      } else {
        OneBlock(s, (o, n), (o, m));
      }
    }
  }
}
