/** One page of the pooled heap: cells of a size class, a free list threaded through the headers of
    free cells, and a bump cursor over cells never used. */
module GcPages {
  import opened GcModel

  const PAGE_SIZE: nat := 16384

  datatype Page = Page(
    start: nat, osize: nat, freelist: nat, nfree: nat, liveN: nat,
    hasMarked: bool, hasYoung: bool, nold: nat, prevNold: nat, inUse: bool, bump: nat)

  /** Which cells of a page hold objects, its free list in order, and how many cells were ever used. */
  datatype View = View(occ: set<nat>, free: seq<nat>, used: nat)

  // --- headers -----------------------------------------------------------------------------

  /** A header word is a type reference with the state in its low two bits; in a free cell it is the
      next free cell. */
  function Bits(w: nat): nat { w % 4 }
  function TypeOf(w: nat): nat { w - w % 4 }
  function WithBits(w: nat, b: nat): nat { TypeOf(w) + b % 4 }

  lemma WithBitsBits(w: nat, b: nat)
    requires b < 4
    ensures Bits(WithBits(w, b)) == b && TypeOf(WithBits(w, b)) == TypeOf(w)
  {
  }

  // --- cells ----------------------------------------------------------------------------------

  function Cap(osize: nat): nat
    requires 0 < osize
  {
    PAGE_SIZE / osize
  }

  function Cell(start: nat, osize: nat, k: nat): nat { start + k * osize }

  lemma CellOrder(start: nat, osize: nat, i: nat, j: nat)
    requires i < j
    ensures Cell(start, osize, i) + osize <= Cell(start, osize, j)
  {
    assert j * osize == i * osize + (j - i) * osize;
    assert (j - i) * osize >= osize by {
      if j - i > 1 { assert (j - i) * osize == osize + (j - i - 1) * osize; }
    }
  }

  lemma CellFits(start: nat, osize: nat, k: nat)
    requires 0 < osize && k < Cap(osize)
    ensures Cell(start, osize, k) + osize <= start + PAGE_SIZE
  {
    CellOrder(start, osize, k, Cap(osize));
  }

  /** The first `n` cells. */
  function Cells(start: nat, osize: nat, n: nat): (r: set<nat>)
    requires 0 < osize
    ensures forall c :: c in r <==> exists k :: 0 <= k < n && c == Cell(start, osize, k)
    ensures |r| == n
  {
    if n == 0 then {}
    else
      var r := Cells(start, osize, n - 1);
      assert Cell(start, osize, n - 1) !in r by {
        if Cell(start, osize, n - 1) in r {
          var k :| 0 <= k < n - 1 && Cell(start, osize, n - 1) == Cell(start, osize, k);
          CellOrder(start, osize, k, n - 1);
        }
      }
      r + {Cell(start, osize, n - 1)}
  }

  /** The number of cells below the bump cursor, as the sweep computes it. */
  function Used(pg: Page): nat
    requires 0 < pg.osize && pg.start <= pg.bump
  {
    (pg.bump - pg.start) / pg.osize
  }

  lemma UsedExact(pg: Page, n: nat)
    requires 0 < pg.osize && pg.bump == Cell(pg.start, pg.osize, n)
    ensures pg.start <= pg.bump && Used(pg) == n
  {
    DivExact(n, pg.osize);
  }

  lemma {:induction false} DivExact(n: nat, osize: nat)
    requires 0 < osize
    ensures n * osize / osize == n
  {
    var q := n * osize / osize;
    assert q * osize <= n * osize < q * osize + osize;
    if q < n { CellOrder(0, osize, q, n); }
    if n < q { CellOrder(0, osize, n, q); }
  }

  // --- the free list ------------------------------------------------------------------------------

  /** Following the links from `head` visits exactly `cells`, then null. */
  ghost predicate LinkedList(hdr: map<nat, nat>, head: nat, cells: seq<nat>)
    decreases |cells|
  {
    if cells == [] then head == 0
    else head == cells[0] && head != 0 && head in hdr && LinkedList(hdr, hdr[head], cells[1..])
  }

  lemma {:induction false} ListIgnoresOthers(hdr: map<nat, nat>, hdr': map<nat, nat>, head: nat, cells: seq<nat>)
    requires LinkedList(hdr, head, cells)
    requires forall c :: c in cells && c in hdr ==> c in hdr' && hdr'[c] == hdr[c]
    ensures LinkedList(hdr', head, cells)
    decreases |cells|
  {
    if cells != [] {
      assert forall c :: c in cells[1..] ==> c in cells;
      ListIgnoresOthers(hdr, hdr', hdr[head], cells[1..]);
    }
  }

  lemma ListPop(hdr: map<nat, nat>, head: nat, cells: seq<nat>)
    requires LinkedList(hdr, head, cells) && head != 0
    ensures cells != [] && head == cells[0] && head in hdr && LinkedList(hdr, hdr[head], cells[1..])
  {
  }

  /** A list without repetition stays a list when its head is relinked away from it. */
  lemma ListPush(hdr: map<nat, nat>, head: nat, cells: seq<nat>, c: nat)
    requires LinkedList(hdr, head, cells) && c != 0 && c !in cells
    ensures LinkedList(hdr[c := head], c, [c] + cells)
  {
    ListIgnoresOthers(hdr, hdr[c := head], head, cells);
    assert ([c] + cells)[1..] == cells;
  }

  // --- a consistent page ------------------------------------------------------------------------------

  ghost predicate GoodSize(osize: nat) {
    8 <= osize <= PAGE_SIZE && osize % 8 == 0
  }

  /** The occupied cells and the free list, which repeats none, make up `cells` between them. */
  ghost predicate Split(occ: set<nat>, free: seq<nat>, cells: set<nat>) {
    NoDuplicates(free) && occ !! Elems(free) && occ + Elems(free) == cells
  }

  lemma SplitMembers(occ: set<nat>, free: seq<nat>, cells: set<nat>, c: nat)
    requires Split(occ, free, cells)
    ensures c in cells <==> c in occ || c in free
    ensures c in occ ==> c !in free
  {
    hide Elems;
    assert c in cells <==> c in occ + Elems(free);
  }

  lemma SplitCount(occ: set<nat>, free: seq<nat>, cells: set<nat>)
    requires Split(occ, free, cells)
    ensures |occ| + |free| == |cells|
  {
    hide Elems;
    assert |occ + Elems(free)| == |occ| + |Elems(free)|;
  }

  lemma SplitTake(occ: set<nat>, free: seq<nat>, cells: set<nat>)
    requires Split(occ, free, cells) && free != []
    ensures Split(occ + {free[0]}, free[1..], cells) && free[0] !in occ && free[0] in cells
  {
    hide Elems;
    PopElems(free);
  }

  lemma SplitAdd(occ: set<nat>, free: seq<nat>, cells: set<nat>, c: nat)
    requires Split(occ, free, cells) && c !in cells
    ensures Split(occ + {c}, free, cells + {c}) && Split(occ, [c] + free, cells + {c}) && c !in occ && c !in free
  {
    hide Elems;
    SplitMembers(occ, free, cells, c);
    PushElems(free, c);
  }

  lemma PopElems(s: seq<nat>)
    requires s != [] && NoDuplicates(s)
    ensures s[0] in s && s[0] !in s[1..] && NoDuplicates(s[1..]) && Elems(s) == {s[0]} + Elems(s[1..])
  {
    hide Elems;
    assert s == [s[0]] + s[1..];
    forall x: nat ensures x in s <==> x == s[0] || x in s[1..] {}
  }

  lemma PushElems(s: seq<nat>, c: nat)
    requires NoDuplicates(s) && c !in s
    ensures NoDuplicates([c] + s) && Elems([c] + s) == Elems(s) + {c}
  {
    hide Elems;
    forall x: nat ensures x in [c] + s <==> x == c || x in s {}
  }

  /** Counts, cursor, occupied cells and free list agree. */
  ghost predicate PageOk(hdr: map<nat, nat>, pg: Page, v: View) {
    && GoodSize(pg.osize) && 0 < pg.start && pg.start % 8 == 0
    && pg.bump == Cell(pg.start, pg.osize, v.used) && v.used <= Cap(pg.osize)
    && Split(v.occ, v.free, Cells(pg.start, pg.osize, v.used)) && Cells(pg.start, pg.osize, v.used) <= hdr.Keys
    && pg.liveN == |v.occ| && pg.nfree == |v.free| + Cap(pg.osize) - v.used
    && LinkedList(hdr, pg.freelist, v.free)
  }

  function Elems(s: seq<nat>): (r: set<nat>)
    ensures forall x: nat :: x in r <==> x in s
    ensures NoDuplicates(s) ==> |r| == |s|
  {
    if s == [] then {}
    else
      assert s == s[..|s| - 1] + [s[|s| - 1]];
      Elems(s[..|s| - 1]) + {s[|s| - 1]}
  }

  /** Every cell is live or free: the two counts add up to the page's capacity. */
  lemma PageCounts(hdr: map<nat, nat>, pg: Page, v: View)
    requires PageOk(hdr, pg, v)
    ensures pg.liveN + pg.nfree == Cap(pg.osize)
  {
    SplitCount(v.occ, v.free, Cells(pg.start, pg.osize, v.used));
  }

  lemma PageIgnoresOthers(hdr: map<nat, nat>, hdr': map<nat, nat>, pg: Page, v: View)
    requires PageOk(hdr, pg, v) && hdr.Keys <= hdr'.Keys
    requires forall c :: c in v.free ==> hdr'[c] == hdr[c]
    ensures PageOk(hdr', pg, v)
  {
    ListIgnoresOthers(hdr, hdr', pg.freelist, v.free);
  }

  lemma CellShape(start: nat, osize: nat, k: nat)
    requires GoodSize(osize) && 0 < start && start % 8 == 0 && k < Cap(osize)
    ensures var c := Cell(start, osize, k); start <= c && c + osize <= start + PAGE_SIZE && c % 8 == 0 && c != 0
  {
    CellFits(start, osize, k);
    MultipleOfEight(k, osize);
  }

  lemma MultipleOfEight(k: nat, osize: nat)
    requires osize % 8 == 0
    ensures k * osize % 8 == 0
  {
    var q := osize / 8;
    assert k * osize == 8 * (k * q);
  }

  /** Cells are aligned and lie inside the page. */
  lemma CellInPage(hdr: map<nat, nat>, pg: Page, v: View, c: nat)
    requires PageOk(hdr, pg, v) && (c in v.occ || c in v.free)
    ensures pg.start <= c && c + pg.osize <= pg.start + PAGE_SIZE && c % 8 == 0 && c != 0
  {
    hide Cell, Cap, LinkedList;
    SplitMembers(v.occ, v.free, Cells(pg.start, pg.osize, v.used), c);
    var k :| 0 <= k < v.used && c == Cell(pg.start, pg.osize, k);
    CellShape(pg.start, pg.osize, k);
  }

  // --- allocating a cell ---------------------------------------------------------------------------------

  /** A page as it starts: every cell virgin. */
  function ResetPage(pg: Page): Page
    requires 0 < pg.osize
  {
    pg.(freelist := 0, bump := pg.start, nfree := Cap(pg.osize), liveN := 0,
        hasMarked := false, hasYoung := false, nold := 0, prevNold := 0, inUse := true)
  }

  lemma ResetPageOk(hdr: map<nat, nat>, pg: Page)
    requires GoodSize(pg.osize) && 0 < pg.start && pg.start % 8 == 0
    ensures PageOk(hdr, ResetPage(pg), View({}, [], 0)) && 0 < ResetPage(pg).nfree
  {
    assert Cell(pg.start, pg.osize, 0) == pg.start;
    assert PAGE_SIZE / pg.osize >= 1;
  }

  /** The free list first; otherwise the next virgin cell. */
  function NextCell(pg: Page): nat {
    if pg.freelist != 0 then pg.freelist else pg.bump
  }

  function TakeCell(hdr: map<nat, nat>, pg: Page): Page
    requires 0 < pg.nfree && (pg.freelist != 0 ==> pg.freelist in hdr)
  {
    (if pg.freelist != 0 then pg.(freelist := hdr[pg.freelist]) else pg.(bump := pg.bump + pg.osize))
      .(nfree := pg.nfree - 1, liveN := pg.liveN + 1, hasYoung := true)
  }

  function TakeView(pg: Page, v: View): View
    requires pg.freelist != 0 ==> v.free != []
  {
    if pg.freelist != 0 then View(v.occ + {v.free[0]}, v.free[1..], v.used)
    else View(v.occ + {pg.bump}, v.free, v.used + 1)
  }

  lemma TakeFreeOk(hdr: map<nat, nat>, pg: Page, v: View, w: nat)
    requires PageOk(hdr, pg, v) && pg.freelist != 0
    ensures 0 < pg.nfree && pg.freelist in hdr && v.free != [] && NextCell(pg) !in v.occ && NextCell(pg) in v.free
    ensures PageOk(hdr[NextCell(pg) := w], TakeCell(hdr, pg), TakeView(pg, v))
  {
    hide Cell, Cap, Cells, Split, LinkedList;
    ListPop(hdr, pg.freelist, v.free);
    var c, rest := v.free[0], v.free[1..];
    PageHasSplit(hdr, pg, v);
    SplitTake(v.occ, v.free, Cells(pg.start, pg.osize, v.used));
    assert c !in rest by { PageNoDuplicates(hdr, pg, v); }
    ListIgnoresOthers(hdr, hdr[c := w], hdr[c], rest);
  }

  lemma PageHasSplit(hdr: map<nat, nat>, pg: Page, v: View)
    requires PageOk(hdr, pg, v)
    ensures Split(v.occ, v.free, Cells(pg.start, pg.osize, v.used)) && Cells(pg.start, pg.osize, v.used) <= hdr.Keys
  {
  }

  lemma PageNoDuplicates(hdr: map<nat, nat>, pg: Page, v: View)
    requires PageOk(hdr, pg, v)
    ensures NoDuplicates(v.free)
  {
  }

  lemma CellsGrow(start: nat, osize: nat, n: nat)
    requires 0 < osize
    ensures Cells(start, osize, n + 1) == Cells(start, osize, n) + {Cell(start, osize, n)}
    ensures Cell(start, osize, n) !in Cells(start, osize, n)
  {
    hide Cell;
    assert Cells(start, osize, n + 1) == Cells(start, osize, n) + {Cell(start, osize, n)};
    assert |Cells(start, osize, n + 1)| == n + 1;
  }

  lemma TakeVirginOk(hdr: map<nat, nat>, pg: Page, v: View, w: nat)
    requires PageOk(hdr, pg, v) && pg.freelist == 0 && 0 < pg.nfree
    ensures v.used < Cap(pg.osize) && NextCell(pg) !in v.occ && NextCell(pg) !in v.free
    ensures PageOk(hdr[NextCell(pg) := w], TakeCell(hdr, pg), TakeView(pg, v))
  {
    hide Cell, Cap, Split, Cells;
    assert v.free == [];
    CellsGrow(pg.start, pg.osize, v.used);
    PageHasSplit(hdr, pg, v);
    SplitAdd(v.occ, v.free, Cells(pg.start, pg.osize, v.used), pg.bump);
    NextBump(pg.start, pg.osize, v.used);
  }

  lemma NextBump(start: nat, osize: nat, n: nat)
    ensures Cell(start, osize, n) + osize == Cell(start, osize, n + 1)
  {
    assert (n + 1) * osize == n * osize + osize;
  }

  /** Taking a cell gives one that held no object, aligned and inside the page, and keeps the page consistent. */
  lemma TakeCellOk(hdr: map<nat, nat>, pg: Page, v: View, w: nat)
    requires PageOk(hdr, pg, v) && 0 < pg.nfree
    ensures (pg.freelist != 0 ==> pg.freelist in hdr && v.free != []) && NextCell(pg) !in v.occ
    ensures PageOk(hdr[NextCell(pg) := w], TakeCell(hdr, pg), TakeView(pg, v))
    ensures TakeView(pg, v).occ == v.occ + {NextCell(pg)}
    ensures var c := NextCell(pg); pg.start <= c && c + pg.osize <= pg.start + PAGE_SIZE && c % 8 == 0 && c != 0
  {
    if pg.freelist != 0 {
      TakeFreeOk(hdr, pg, v, w);
    } else {
      TakeVirginOk(hdr, pg, v, w);
    }
    CellInPage(hdr[NextCell(pg) := w], TakeCell(hdr, pg), TakeView(pg, v), NextCell(pg));
  }

  // --- sweeping one page -------------------------------------------------------------------------------------

  /** A link is a cell or null, so a free cell reads as clean. */
  lemma {:induction false} LinkIsAligned(hdr: map<nat, nat>, head: nat, cells: seq<nat>, c: nat)
    requires LinkedList(hdr, head, cells) && c in cells && forall i :: 0 <= i < |cells| ==> cells[i] % 8 == 0
    ensures c in hdr && hdr[c] % 8 == 0
    decreases |cells|
  {
    if c != cells[0] {
      assert cells == [cells[0]] + cells[1..];
      LinkIsAligned(hdr, hdr[head], cells[1..], c);
    } else if |cells| > 1 {
      assert cells[1..][0] == cells[1];
    }
  }

  lemma FreeCellIsClean(hdr: map<nat, nat>, pg: Page, v: View, c: nat)
    requires PageOk(hdr, pg, v) && c in v.free
    ensures c in hdr && Bits(hdr[c]) == CLEAN
  {
    hide PageOk, LinkedList, Bits;
    assert LinkedList(hdr, pg.freelist, v.free) by { PageHasList(hdr, pg, v); }
    forall i | 0 <= i < |v.free| ensures v.free[i] % 8 == 0 {
      CellInPage(hdr, pg, v, v.free[i]);
    }
    LinkIsAligned(hdr, pg.freelist, v.free, c);
    AlignedIsClean(hdr[c]);
  }

  lemma PageHasList(hdr: map<nat, nat>, pg: Page, v: View)
    requires PageOk(hdr, pg, v)
    ensures LinkedList(hdr, pg.freelist, v.free)
  {
  }

  lemma AlignedIsClean(w: nat)
    requires w % 8 == 0
    ensures Bits(w) == CLEAN
  {
  }

  function MarkedCells(hdr: map<nat, nat>, cells: set<nat>): (r: set<nat>)
    requires cells <= hdr.Keys
  {
    set c | c in cells && HasMark(Bits(hdr[c]))
  }

  /** The cells of the page that read as marked are the marked objects on it. */
  lemma MarkedCellsAreObjects(hdr: map<nat, nat>, pg: Page, v: View)
    requires PageOk(hdr, pg, v)
    ensures Cells(pg.start, pg.osize, v.used) <= hdr.Keys && v.occ <= hdr.Keys
    ensures MarkedCells(hdr, Cells(pg.start, pg.osize, v.used)) == MarkedCells(hdr, v.occ)
  {
    assert 0 < pg.osize;
    hide PageOk, Split, Bits;
    PageHasSplit(hdr, pg, v);
    var cells := Cells(pg.start, pg.osize, v.used);
    forall c | c in cells && HasMark(Bits(hdr[c])) ensures c in v.occ {
      SplitMembers(v.occ, v.free, cells, c);
      if c in v.free {
        FreeCellIsClean(hdr, pg, v, c);
      }
    }
    forall c | c in v.occ ensures c in cells {
      SplitMembers(v.occ, v.free, cells, c);
    }
  }

  /** The headers of a walked page: survivors change state, other cells are relinked, nothing outside
      the walked cells changes. */
  ghost predicate WalkedHeaders(hdr: map<nat, nat>, hdr': map<nat, nat>, cells: set<nat>, full: bool)
    requires cells <= hdr.Keys
  {
    && hdr'.Keys == hdr.Keys
    && (forall c :: c in hdr && c !in cells ==> hdr'[c] == hdr[c])
    && (forall c :: c in cells && HasMark(Bits(hdr[c])) ==> hdr'[c] == WithBits(hdr[c], SweptBits(Bits(hdr[c]), full)))
  }

  /** Walk the cells below the cursor: promote or demote survivors, rebuild the free list. */
  method WalkPage(hdr: map<nat, nat>, pg: Page, ghost v: View, full: bool)
    returns (hdr': map<nat, nat>, fl: nat, nfree: nat, liveN: nat, ghost v': View)
    requires PageOk(hdr, pg, v)
    ensures WalkedHeaders(hdr, hdr', Cells(pg.start, pg.osize, v.used), full)
    ensures v'.used == v.used && v.occ <= hdr.Keys && v'.occ == MarkedCells(hdr, v.occ)
    ensures Split(v'.occ, v'.free, Cells(pg.start, pg.osize, v.used))
    ensures LinkedList(hdr', fl, v'.free) && nfree == |v'.free| && liveN == |v'.occ|
  {
    hide PageOk, Bits, WithBits, SweptBits, Split, LinkedList, MarkedCells, Cells, WalkedHeaders, Cell, Used;
    PageShape(hdr, pg, v);
    MarkedCellsAreObjects(hdr, pg, v);
    StartWalk(hdr, pg, full);
    var used := Used(pg);
    hdr', fl, nfree, liveN := hdr, 0, 0, 0;
    ghost var occ: set<nat>, free: seq<nat> := {}, [];
    ghost var all := Cells(pg.start, pg.osize, used);
    for k := 0 to used
      invariant WalkInv(hdr, hdr', fl, occ, free, Cells(pg.start, pg.osize, k), full)
      invariant nfree == |free| && liveN == |occ| && Cells(pg.start, pg.osize, k) <= all && hdr'.Keys == hdr.Keys
    {
      var slot := Cell(pg.start, pg.osize, k);
      ghost var done := Cells(pg.start, pg.osize, k);
      NextWalked(hdr, pg, v, k);
      var bits := Bits(hdr'[slot]);
      if HasMark(bits) {
        KeepCell(hdr, hdr', fl, occ, free, done, full, slot);
        if bits == MARKED {
          hdr' := hdr'[slot := WithBits(hdr'[slot], OLD)];
        } else if full {
          hdr' := hdr'[slot := WithBits(hdr'[slot], OLD)];
        }
        liveN := liveN + 1;
        occ := occ + {slot};
      } else {
        FreeCell(hdr, hdr', fl, occ, free, done, full, slot);
        hdr' := hdr'[slot := fl];
        fl := slot;
        nfree := nfree + 1;
        free := [slot] + free;
      }
    }
    v' := View(occ, free, v.used);
  }

  lemma PageShape(hdr: map<nat, nat>, pg: Page, v: View)
    requires PageOk(hdr, pg, v)
    ensures 0 < pg.osize && pg.start <= pg.bump && Used(pg) == v.used
  {
    UsedExact(pg, v.used);
  }

  lemma StartWalk(hdr: map<nat, nat>, pg: Page, full: bool)
    requires 0 < pg.osize
    ensures WalkInv(hdr, hdr, 0, {}, [], Cells(pg.start, pg.osize, 0), full)
  {
  }

  /** What has been walked so far. */
  ghost predicate WalkInv(hdr: map<nat, nat>, hdr': map<nat, nat>, fl: nat, occ: set<nat>, free: seq<nat>, done: set<nat>, full: bool) {
    && done <= hdr.Keys && WalkedHeaders(hdr, hdr', done, full)
    && occ == MarkedCells(hdr, done) && Split(occ, free, done) && LinkedList(hdr', fl, free)
  }

  lemma NextWalked(hdr: map<nat, nat>, pg: Page, v: View, k: nat)
    requires PageOk(hdr, pg, v) && k < v.used
    ensures var c := Cell(pg.start, pg.osize, k);
            && c !in Cells(pg.start, pg.osize, k) && Cells(pg.start, pg.osize, k + 1) == Cells(pg.start, pg.osize, k) + {c}
            && c in hdr && c != 0 && Cells(pg.start, pg.osize, k + 1) <= Cells(pg.start, pg.osize, v.used)
  {
    var c := Cell(pg.start, pg.osize, k);
    assert |Cells(pg.start, pg.osize, k + 1)| == k + 1;
    assert c in Cells(pg.start, pg.osize, v.used);
    CellInPage(hdr, pg, v, c);
  }

  lemma KeepHeaders(hdr: map<nat, nat>, hdr': map<nat, nat>, done: set<nat>, full: bool, c: nat)
    requires done <= hdr.Keys && WalkedHeaders(hdr, hdr', done, full) && c in hdr && c !in done && HasMark(Bits(hdr[c]))
    ensures hdr'[c] == hdr[c]
    ensures var h2 := if Bits(hdr[c]) == MARKED || full then hdr'[c := WithBits(hdr[c], OLD)] else hdr';
            WalkedHeaders(hdr, h2, done + {c}, full)
    ensures MarkedCells(hdr, done + {c}) == MarkedCells(hdr, done) + {c}
  {
    WithBitsSame(hdr[c]);
    hide Bits, WithBits;
  }

  lemma WithBitsSame(w: nat)
    ensures WithBits(w, Bits(w)) == w && Bits(w) < 4
  {
  }

  lemma KeepCell(hdr: map<nat, nat>, hdr': map<nat, nat>, fl: nat, occ: set<nat>, free: seq<nat>, done: set<nat>, full: bool, c: nat)
    requires WalkInv(hdr, hdr', fl, occ, free, done, full) && c in hdr && c !in done && c in hdr' && HasMark(Bits(hdr'[c]))
    ensures var b := Bits(hdr'[c]);
            WalkInv(hdr, if b == MARKED || full then hdr'[c := WithBits(hdr'[c], OLD)] else hdr',
                    fl, occ + {c}, free, done + {c}, full)
    ensures c !in occ
  {
    hide Bits, WithBits, LinkedList, Split, MarkedCells;
    KeepHeaders(hdr, hdr', done, full, c);
    SplitAdd(occ, free, done, c);
    var h2 := if Bits(hdr'[c]) == MARKED || full then hdr'[c := WithBits(hdr'[c], OLD)] else hdr';
    ListIgnoresOthers(hdr', h2, fl, free);
  }

  lemma FreeCell(hdr: map<nat, nat>, hdr': map<nat, nat>, fl: nat, occ: set<nat>, free: seq<nat>, done: set<nat>, full: bool, c: nat)
    requires WalkInv(hdr, hdr', fl, occ, free, done, full)
    requires c in hdr && c !in done && c in hdr' && c != 0 && !HasMark(Bits(hdr'[c]))
    ensures WalkInv(hdr, hdr'[c := fl], c, occ, [c] + free, done + {c}, full)
  {
    hide Bits, WithBits, LinkedList, Split;
    assert hdr'[c] == hdr[c];
    SplitAdd(occ, free, done, c);
    ListPush(hdr', fl, free, c);
    assert MarkedCells(hdr, done + {c}) == MarkedCells(hdr, done);
  }

  /** The walked page with its new counts is consistent again. */
  lemma WalkedPageOk(hdr: map<nat, nat>, hdr': map<nat, nat>, pg: Page, v: View, fl: nat, v': View, full: bool, pg': Page)
    requires PageOk(hdr, pg, v) && WalkedHeaders(hdr, hdr', Cells(pg.start, pg.osize, v.used), full)
    requires v'.used == v.used && Split(v'.occ, v'.free, Cells(pg.start, pg.osize, v.used))
    requires LinkedList(hdr', fl, v'.free)
    requires pg'.start == pg.start && pg'.osize == pg.osize && pg'.bump == pg.bump && pg'.freelist == fl
    requires pg'.liveN == |v'.occ| && pg'.nfree == |v'.free| + Cap(pg.osize) - v.used
    ensures PageOk(hdr', pg', v')
  {
  }
}
