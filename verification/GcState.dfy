/** The pooled heap as a whole: pages, size-class pools, big blocks, headers; when it is consistent, and
    the abstract heap it stands for. */
module GcState {
  import opened GcModel
  import opened GcPages

  /** A size class and its pages that may have room. */
  datatype Pool = Pool(osize: nat, pageQ: seq<nat>)

  /** Offset and size of a big object or a free big block. */
  type Block = (nat, nat)

  /** A snapshot of everything the collector keeps.  `hdr` holds header words by offset, `body` the
      reference fields of each object; an object is named by the offset of its header. */
  datatype Snap = Snap(
    hdr: map<nat, nat>, body: map<nat, seq<nat>>,
    pages: seq<Page>, views: seq<View>, pools: seq<Pool>, freePages: seq<nat>,
    remembered: seq<nat>, prevFull: bool, live: nat,
    bigsYoung: seq<Block>, bigsOld: seq<Block>, freeBigs: seq<Block>, top: nat)

  // --- objects ------------------------------------------------------------------------------------

  ghost function PageObjs(views: seq<View>): (r: set<nat>)
    ensures forall o: nat :: o in r <==> exists i :: 0 <= i < |views| && o in views[i].occ
  {
    set i: nat, o: nat | i < |views| && o in views[i].occ :: o
  }

  ghost function Offs(bs: seq<Block>): (r: set<nat>)
    ensures forall o: nat :: o in r <==> exists i :: 0 <= i < |bs| && bs[i].0 == o
  {
    set i: nat | i < |bs| :: bs[i].0
  }

  ghost function Objs(s: Snap): set<nat> {
    PageObjs(s.views) + Offs(s.bigsYoung) + Offs(s.bigsOld)
  }

  /** The references of an object: its type, then its fields. */
  ghost function RefsOf(hdr: map<nat, nat>, body: map<nat, seq<nat>>, o: nat): seq<nat>
    requires o in hdr && o in body
  {
    [TypeOf(hdr[o])] + body[o]
  }

  ghost function Abs(s: Snap): Heap {
    Heap(map o | o in Objs(s) && o in s.hdr && o in s.body :: RefsOf(s.hdr, s.body, o),
         map o | o in Objs(s) && o in s.hdr && o in s.body :: Bits(s.hdr[o]),
         s.remembered, s.prevFull)
  }

  // --- consistency ----------------------------------------------------------------------------------

  ghost predicate PageInTable(pg: Page, top: nat) {
    0 < pg.start && pg.start % 8 == 0 && pg.start + PAGE_SIZE <= top
  }

  /** Pages are sorted and disjoint; those in use are consistent, the others hold nothing. */
  ghost predicate TableOk(hdr: map<nat, nat>, pages: seq<Page>, views: seq<View>, top: nat) {
    && |views| == |pages|
    && (forall i, j :: 0 <= i < j < |pages| ==> pages[i].start + PAGE_SIZE <= pages[j].start)
    && (forall i :: 0 <= i < |pages| ==> PageInTable(pages[i], top))
    && (forall i :: 0 <= i < |pages| ==> if pages[i].inUse then PageOk(hdr, pages[i], views[i]) else views[i].occ == {})
  }

  ghost predicate BlockOk(b: Block, pages: seq<Page>, top: nat) {
    && 0 < b.0 && b.0 % 8 == 0 && 0 < b.1 && b.0 + b.1 <= top
    && forall i :: 0 <= i < |pages| ==> b.0 + b.1 <= pages[i].start || pages[i].start + PAGE_SIZE <= b.0
  }

  predicate Apart(a: Block, b: Block) {
    a.0 + a.1 <= b.0 || b.0 + b.1 <= a.0
  }

  /** Big blocks, used or free, lie apart from each other and from the pages. */
  ghost predicate LayoutOk(all: multiset<Block>, pages: seq<Page>, top: nat) {
    && (forall b :: b in all ==> all[b] == 1 && BlockOk(b, pages, top))
    && (forall a, b :: a in all && b in all && a != b ==> Apart(a, b))
  }

  ghost function AllBlocks(s: Snap): multiset<Block> {
    multiset(s.bigsYoung) + multiset(s.bigsOld) + multiset(s.freeBigs)
  }

  ghost predicate Queued(pools: seq<Pool>, q: nat, osize: nat) {
    exists p :: 0 <= p < |pools| && pools[p].osize == osize && q in pools[p].pageQ
  }

  ghost predicate InClass(pages: seq<Page>, q: nat, osize: nat) {
    q < |pages| && pages[q].inUse && pages[q].osize == osize
  }

  /** Queues hold pages of their class in use; every page in use with room is queued; the free list of
      pages holds exactly the released ones. */
  ghost predicate PoolsOk(pages: seq<Page>, pools: seq<Pool>, freePages: seq<nat>) {
    && (forall p, r :: 0 <= p < r < |pools| ==> pools[p].osize != pools[r].osize)
    && (forall p: nat, q: nat :: p < |pools| && q in pools[p].pageQ ==> InClass(pages, q, pools[p].osize))
    && (forall q :: 0 <= q < |pages| && pages[q].inUse && 0 < pages[q].nfree ==> Queued(pools, q, pages[q].osize))
    && NoDuplicates(freePages) && (forall q: nat :: q in freePages <==> q < |pages| && !pages[q].inUse)
  }

  /** What a page's flags say about the objects on it between collections. */
  ghost predicate FlagsOk(hdr: map<nat, nat>, pg: Page, occ: set<nat>, prevFull: bool)
    requires occ <= hdr.Keys
  {
    && (!pg.hasMarked ==> forall o :: o in occ ==> Bits(hdr[o]) == CLEAN)
    && (!pg.hasYoung ==> forall o :: o in occ ==> Bits(hdr[o]) != CLEAN)
    && (prevFull ==> pg.nold == 0 && (!pg.hasYoung ==> pg.prevNold == |occ|))
  }

  function SumLive(views: seq<View>): nat {
    if views == [] then 0 else SumLive(views[..|views| - 1]) + |views[|views| - 1].occ|
  }

  /** Structure only: nothing here depends on the state bits of objects. */
  ghost predicate Sound(s: Snap) {
    && s.top % 8 == 0 && 8 <= s.top
    && |s.views| == |s.pages| && TableOk(s.hdr, s.pages, s.views, s.top)
    && LayoutOk(AllBlocks(s), s.pages, s.top)
    && PoolsOk(s.pages, s.pools, s.freePages)
    && Objs(s) <= s.hdr.Keys && Objs(s) <= s.body.Keys
  }

  ghost predicate PageFlags(s: Snap, i: nat) {
    i < |s.pages| && i < |s.views| && s.views[i].occ <= s.hdr.Keys && FlagsOk(s.hdr, s.pages[i], s.views[i].occ, s.prevFull)
  }

  ghost predicate AllFlagsOk(s: Snap) {
    && (forall i :: 0 <= i < |s.pages| && s.pages[i].inUse ==> PageFlags(s, i))
    && (forall o :: o in Offs(s.bigsOld) ==> o in s.hdr && HasMark(Bits(s.hdr[o])))
    && (s.prevFull ==> s.bigsOld == [])
  }

  ghost predicate Counted(s: Snap) {
    s.live == SumLive(s.views) + |s.bigsYoung| + |s.bigsOld|
  }

  /** Between collections. */
  ghost predicate Valid(s: Snap) {
    Sound(s) && Counted(s) && AllFlagsOk(s)
  }

  lemma OccInHdr(s: Snap, i: nat)
    requires |s.views| == |s.pages| && Objs(s) <= s.hdr.Keys && i < |s.pages|
    ensures s.views[i].occ <= s.hdr.Keys
  {
    forall o | o in s.views[i].occ ensures o in s.hdr {
      assert o in PageObjs(s.views);
    }
  }

  lemma OccIsObject(s: Snap, i: nat)
    requires i < |s.views|
    ensures s.views[i].occ <= Objs(s)
  {
    forall o | o in s.views[i].occ ensures o in Objs(s) { assert o in PageObjs(s.views); }
  }

  lemma OldIsObject(s: Snap, o: nat)
    requires o in Offs(s.bigsOld)
    ensures o in Objs(s)
  {
  }

  // --- where objects lie --------------------------------------------------------------------------------

  lemma OnPage(s: Snap, i: nat, o: nat)
    requires Sound(s) && i < |s.pages| && (o in s.views[i].occ || (s.pages[i].inUse && o in s.views[i].free))
    ensures s.pages[i].inUse && s.pages[i].start <= o < s.pages[i].start + PAGE_SIZE && o % 8 == 0 && o != 0
  {
    CellInPage(s.hdr, s.pages[i], s.views[i], o);
  }

  lemma OnePage(s: Snap, i: nat, j: nat, o: nat)
    requires Sound(s) && i < |s.pages| && j < |s.pages| && o in s.views[i].occ && o in s.views[j].occ
    ensures i == j
  {
    OnPage(s, i, o);
    OnPage(s, j, o);
  }

  lemma BigBlock(s: Snap, o: nat) returns (b: Block)
    requires Sound(s) && (o in Offs(s.bigsYoung) || o in Offs(s.bigsOld))
    ensures b.0 == o && b in multiset(s.bigsYoung) + multiset(s.bigsOld) && BlockOk(b, s.pages, s.top)
  {
    if o in Offs(s.bigsYoung) {
      var i :| 0 <= i < |s.bigsYoung| && s.bigsYoung[i].0 == o;
      b := s.bigsYoung[i];
      assert b in multiset(s.bigsYoung);
    } else {
      var i :| 0 <= i < |s.bigsOld| && s.bigsOld[i].0 == o;
      b := s.bigsOld[i];
      assert b in multiset(s.bigsOld);
    }
  }

  /** A big object lies on no page. */
  lemma BigOffPage(s: Snap, o: nat, i: nat)
    requires Sound(s) && (o in Offs(s.bigsYoung) || o in Offs(s.bigsOld)) && i < |s.pages|
    ensures !(s.pages[i].start <= o < s.pages[i].start + PAGE_SIZE) && o % 8 == 0 && o != 0
    ensures o !in s.views[i].occ
  {
    var b := BigBlock(s, o);
    if o in s.views[i].occ {
      OnPage(s, i, o);
    }
  }

  lemma FreeCellOnPage(hdr: map<nat, nat>, pg: Page, v: View, c: nat)
    requires PageOk(hdr, pg, v) && c in v.free
    ensures c !in v.occ && c in hdr
  {
    hide LinkedList, Cell, Cap;
    SplitMembers(v.occ, v.free, Cells(pg.start, pg.osize, v.used), c);
  }

  /** A free cell is no object. */
  lemma FreeIsNoObject(s: Snap, i: nat, c: nat)
    requires Sound(s) && i < |s.pages| && s.pages[i].inUse && c in s.views[i].free
    ensures c !in Objs(s)
  {
    hide PageOk, LayoutOk, PoolsOk;
    FreeCellOnPage(s.hdr, s.pages[i], s.views[i], c);
    OnPage(s, i, c);
    if c in PageObjs(s.views) {
      var j :| 0 <= j < |s.views| && c in s.views[j].occ;
      OnPage(s, j, c);
    } else if c in Objs(s) {
      BigOffPage(s, c, i);
    }
  }

  /** Header changes confined to objects leave the structure alone. */
  lemma HeadersKeepSound(s: Snap, hdr': map<nat, nat>)
    requires Sound(s) && hdr'.Keys == s.hdr.Keys
    requires forall c :: c in s.hdr && c !in Objs(s) ==> hdr'[c] == s.hdr[c]
    ensures Sound(s.(hdr := hdr'))
  {
    hide LayoutOk, PoolsOk, PageOk;
    forall i | 0 <= i < |s.pages| && s.pages[i].inUse ensures PageOk(hdr', s.pages[i], s.views[i]) {
      forall c | c in s.views[i].free ensures c in s.hdr && hdr'[c] == s.hdr[c] {
        FreeIsNoObject(s, i, c);
        FreeCellOnPage(s.hdr, s.pages[i], s.views[i], c);
      }
      PageIgnoresOthers(s.hdr, hdr', s.pages[i], s.views[i]);
    }
  }
}
