/** The sweep of big objects, and the heap once pages and big objects are swept. */
module GcBigs {
  import opened GcModel
  import opened GcPages
  import opened GcState
  import opened GcOps
  import opened GcMarking
  import opened GcSweep

  datatype Fate = Freed | StaysYoung | Settles

  /** What a sweep does with a big object on the young list. */
  function FateOf(bits: nat, full: bool): Fate {
    if !HasMark(bits) then Freed else if full || bits == MARKED then StaysYoung else Settles
  }

  predicate AllIn(hdr: map<nat, nat>, bs: seq<Block>) {
    forall i :: 0 <= i < |bs| ==> bs[i].0 in hdr
  }

  /** The blocks of `bs`, in order, that meet `fate`. */
  function Pick(hdr: map<nat, nat>, bs: seq<Block>, full: bool, fate: Fate): (r: seq<Block>)
    requires AllIn(hdr, bs)
    ensures forall b :: b in r <==> b in bs && b.0 in hdr && FateOf(Bits(hdr[b.0]), full) == fate
  {
    if bs == [] then []
    else
      var n := |bs| - 1;
      assert bs == bs[..n] + [bs[n]];
      Pick(hdr, bs[..n], full, fate) + if FateOf(Bits(hdr[bs[n].0]), full) == fate then [bs[n]] else []
  }

  /** No block is lost. */
  lemma {:induction false} PickAll(hdr: map<nat, nat>, bs: seq<Block>, full: bool)
    requires AllIn(hdr, bs)
    ensures multiset(Pick(hdr, bs, full, Freed)) + multiset(Pick(hdr, bs, full, StaysYoung)) + multiset(Pick(hdr, bs, full, Settles))
            == multiset(bs)
  {
    hide Bits;
    if bs != [] {
      var n := |bs| - 1;
      assert bs == bs[..n] + [bs[n]];
      PickAll(hdr, bs[..n], full);
    }
  }

  /** A full sweep settles nothing. */
  lemma {:induction false} FullSettlesNone(hdr: map<nat, nat>, bs: seq<Block>)
    requires AllIn(hdr, bs)
    ensures Pick(hdr, bs, true, Settles) == []
  {
    hide Bits;
    if bs != [] {
      FullSettlesNone(hdr, bs[..|bs| - 1]);
    }
  }

  // --- headers ------------------------------------------------------------------------------------

  /** Exactly the objects at `offs` have become old. */
  ghost predicate Aged(hdr: map<nat, nat>, hdr': map<nat, nat>, offs: set<nat>) {
    hdr'.Keys == hdr.Keys && forall c :: c in hdr ==> hdr'[c] == if c in offs then WithBits(hdr[c], OLD) else hdr[c]
  }

  lemma AgeOne(hdr: map<nat, nat>, hdr': map<nat, nat>, offs: set<nat>, c: nat)
    requires Aged(hdr, hdr', offs) && c in hdr && c !in offs
    ensures hdr'[c] == hdr[c] && Aged(hdr, SetBits(hdr', c, OLD), offs + {c})
  {
    hide WithBits;
  }

  predicate DistinctOffs(bs: seq<Block>) {
    forall i, j :: 0 <= i < j < |bs| ==> bs[i].0 != bs[j].0
  }

  lemma DistinctElements(bs: seq<Block>, rest: multiset<Block>, i: nat, j: nat)
    requires i < j < |bs| && bs[i] == bs[j]
    ensures (multiset(bs) + rest)[bs[i]] >= 2
  {
    assert bs == bs[..j] + [bs[j]] + bs[j + 1..];
    assert bs[i] in bs[..j];
    assert multiset(bs) == multiset(bs[..j]) + multiset{bs[j]} + multiset(bs[j + 1..]);
  }

  lemma DistinctBigs(bs: seq<Block>, rest: multiset<Block>, pages: seq<Page>, top: nat)
    requires LayoutOk(multiset(bs) + rest, pages, top)
    ensures DistinctOffs(bs)
  {
    var all := multiset(bs) + rest;
    forall i, j | 0 <= i < j < |bs| ensures bs[i].0 != bs[j].0 {
      assert bs[i] in multiset(bs) && bs[j] in multiset(bs);
      assert bs[i] in all && bs[j] in all;
      assert BlockOk(bs[i], pages, top) && BlockOk(bs[j], pages, top);
      if bs[i] == bs[j] {
        DistinctElements(bs, rest, i, j);
      } else {
        assert Apart(bs[i], bs[j]);
      }
    }
  }

  /** Big objects, young then old, have different offsets. */
  lemma BigsDistinct(s: Snap)
    requires Sound(s)
    ensures DistinctOffs(s.bigsYoung + s.bigsOld) && DistinctOffs(s.bigsYoung) && DistinctOffs(s.bigsOld)
    ensures Offs(s.bigsYoung) !! Offs(s.bigsOld)
  {
    hide TableOk, PoolsOk, LayoutOk;
    var bs := s.bigsYoung + s.bigsOld;
    assert AllBlocks(s) == multiset(bs) + multiset(s.freeBigs);
    DistinctBigs(bs, multiset(s.freeBigs), s.pages, s.top);
    assert forall i :: 0 <= i < |s.bigsOld| ==> bs[|s.bigsYoung| + i] == s.bigsOld[i];
    assert forall i :: 0 <= i < |s.bigsYoung| ==> bs[i] == s.bigsYoung[i];
    forall i, j | 0 <= i < |s.bigsYoung| && 0 <= j < |s.bigsOld| ensures s.bigsYoung[i].0 != s.bigsOld[j].0 {
      assert bs[i].0 != bs[|s.bigsYoung| + j].0;
    }
  }

  lemma PickStep(hdr: map<nat, nat>, bs: seq<Block>, k: nat, full: bool, fate: Fate)
    requires AllIn(hdr, bs) && k < |bs|
    ensures Pick(hdr, bs[..k + 1], full, fate)
            == Pick(hdr, bs[..k], full, fate) + if FateOf(Bits(hdr[bs[k].0]), full) == fate then [bs[k]] else []
  {
    hide Bits;
    assert bs[..k + 1][..k] == bs[..k];
  }

  /** A block not yet walked has not been made old. */
  lemma NotYetAged(hdr: map<nat, nat>, bs: seq<Block>, k: nat, full: bool)
    requires AllIn(hdr, bs) && DistinctOffs(bs) && k < |bs|
    ensures bs[k].0 !in Offs(Pick(hdr, bs[..k], full, StaysYoung))
  {
    hide Bits, Pick;
    PickOffs(hdr, bs[..k], full, StaysYoung, bs[k].0);
    if bs[k].0 in Offs(bs[..k]) {
      var i :| 0 <= i < k && bs[..k][i].0 == bs[k].0;
      assert bs[i].0 != bs[k].0;
    }
  }

  lemma AgedTwice(h: map<nat, nat>, h1: map<nat, nat>, h2: map<nat, nat>, a: set<nat>, b: set<nat>)
    requires Aged(h, h1, a) && Aged(h1, h2, b) && a !! b
    ensures Aged(h, h2, a + b)
  {
    hide WithBits;
  }

  // --- the lists after the sweep --------------------------------------------------------------------

  ghost function YoungAfter(m: Snap, full: bool): seq<Block>
    requires AllIn(m.hdr, m.bigsYoung)
  {
    Pick(m.hdr, m.bigsYoung, full, StaysYoung) + if full then m.bigsOld else []
  }

  ghost function OldAfter(m: Snap, full: bool): seq<Block>
    requires AllIn(m.hdr, m.bigsYoung)
  {
    if full then [] else m.bigsOld + Pick(m.hdr, m.bigsYoung, full, Settles)
  }

  ghost function FreeAfter(m: Snap, full: bool): seq<Block>
    requires AllIn(m.hdr, m.bigsYoung)
  {
    m.freeBigs + Pick(m.hdr, m.bigsYoung, full, Freed)
  }

  lemma BigsInHdr(m: Snap)
    requires Objs(m) <= m.hdr.Keys
    ensures AllIn(m.hdr, m.bigsYoung) && AllIn(m.hdr, m.bigsOld)
  {
    forall i | 0 <= i < |m.bigsYoung| ensures m.bigsYoung[i].0 in m.hdr { assert m.bigsYoung[i].0 in Offs(m.bigsYoung); }
    forall i | 0 <= i < |m.bigsOld| ensures m.bigsOld[i].0 in m.hdr { assert m.bigsOld[i].0 in Offs(m.bigsOld); }
  }

  /** The used and free blocks are the same ones as before. */
  lemma BlocksAfter(m: Snap, full: bool)
    requires AllIn(m.hdr, m.bigsYoung)
    ensures multiset(YoungAfter(m, full)) + multiset(OldAfter(m, full)) + multiset(FreeAfter(m, full)) == AllBlocks(m)
  {
    hide Pick, Bits;
    PickAll(m.hdr, m.bigsYoung, full);
    if full { FullSettlesNone(m.hdr, m.bigsYoung); }
  }

  lemma OffsConcat(a: seq<Block>, b: seq<Block>)
    ensures Offs(a + b) == Offs(a) + Offs(b)
  {
    forall o: nat ensures o in Offs(a + b) <==> o in Offs(a) || o in Offs(b) {
      if o in Offs(a + b) {
        var i :| 0 <= i < |a + b| && (a + b)[i].0 == o;
        if i < |a| { assert a[i].0 == o; } else { assert b[i - |a|].0 == o; }
      }
      if o in Offs(a) {
        var i :| 0 <= i < |a| && a[i].0 == o;
        assert (a + b)[i].0 == o;
      }
      if o in Offs(b) {
        var i :| 0 <= i < |b| && b[i].0 == o;
        assert (a + b)[|a| + i].0 == o;
      }
    }
  }

  lemma PickOffs(hdr: map<nat, nat>, bs: seq<Block>, full: bool, fate: Fate, o: nat)
    requires AllIn(hdr, bs)
    ensures o in Offs(Pick(hdr, bs, full, fate)) <==> o in Offs(bs) && o in hdr && FateOf(Bits(hdr[o]), full) == fate
  {
    hide Bits;
    var r := Pick(hdr, bs, full, fate);
    if o in Offs(r) {
      var i :| 0 <= i < |r| && r[i].0 == o;
      assert r[i] in r;
      var j :| 0 <= j < |bs| && bs[j] == r[i];
    }
    if o in Offs(bs) && o in hdr && FateOf(Bits(hdr[o]), full) == fate {
      var j :| 0 <= j < |bs| && bs[j].0 == o;
      assert bs[j] in bs && bs[j] in r;
      var i :| 0 <= i < |r| && r[i] == bs[j];
    }
  }

  /** Exactly the marked big objects are left. */
  lemma BigsLeft(m: Snap, full: bool, o: nat)
    requires Marking(m, []) && AllIn(m.hdr, m.bigsYoung)
    ensures o in Offs(YoungAfter(m, full)) <==> (o in Offs(m.bigsYoung) && o in m.hdr && FateOf(Bits(m.hdr[o]), full) == StaysYoung) || (full && o in Offs(m.bigsOld))
    ensures o in Offs(OldAfter(m, full)) <==> !full && (o in Offs(m.bigsOld) || (o in Offs(m.bigsYoung) && o in m.hdr && FateOf(Bits(m.hdr[o]), full) == Settles))
    ensures o in Offs(YoungAfter(m, full)) || o in Offs(OldAfter(m, full)) <==>
            (o in Offs(m.bigsYoung) || o in Offs(m.bigsOld)) && o in m.hdr && HasMark(Bits(m.hdr[o]))
  {
    hide Bits, Sound, Pick;
    PickOffs(m.hdr, m.bigsYoung, full, StaysYoung, o);
    PickOffs(m.hdr, m.bigsYoung, full, Settles, o);
    OffsConcat(Pick(m.hdr, m.bigsYoung, full, StaysYoung), if full then m.bigsOld else []);
    OffsConcat(m.bigsOld, Pick(m.hdr, m.bigsYoung, full, Settles));
    if o in Offs(m.bigsOld) { assert OldBig(m.hdr, o, []); }
  }

  /** The offsets whose objects the sweep of big objects makes old. */
  ghost function AgedOffs(m: Snap, full: bool): set<nat>
    requires AllIn(m.hdr, m.bigsYoung)
  {
    Offs(Pick(m.hdr, m.bigsYoung, full, StaysYoung)) + if full then Offs(m.bigsOld) else {}
  }

  /** `s` is the heap once pages and big objects of the marked heap `m` are swept. */
  ghost predicate AllSwept(m: Snap, s1: Snap, s: Snap, full: bool) {
    && AllIn(m.hdr, m.bigsYoung) && SweepInv(m, s1, |m.pages|, full)
    && s == s1.(hdr := s.hdr, bigsYoung := YoungAfter(m, full), bigsOld := OldAfter(m, full), freeBigs := FreeAfter(m, full), prevFull := full, live := s.live)
    && Aged(s1.hdr, s.hdr, AgedOffs(m, full))
    && Counted(s)
  }

  lemma BigOutside(m: Snap, s1: Snap, full: bool, o: nat)
    requires SweepInv(m, s1, |m.pages|, full) && (o in Offs(m.bigsYoung) || o in Offs(m.bigsOld))
    ensures o in s1.hdr && s1.hdr[o] == m.hdr[o] && forall i :: 0 <= i < |s1.views| ==> o !in s1.views[i].occ
  {
    hide Sound, Inside, SweptAt;
    BigInHdr(s1, o);
    forall i | 0 <= i < |s1.views| ensures o !in s1.views[i].occ && !Inside(s1.pages[i], o) {
      BigNotInside(s1, o, i);
    }
  }

  lemma BigInHdr(s: Snap, o: nat)
    requires Sound(s) && (o in Offs(s.bigsYoung) || o in Offs(s.bigsOld))
    ensures o in s.hdr
  {
  }

  lemma BigNotInside(s: Snap, o: nat, i: nat)
    requires Sound(s) && (o in Offs(s.bigsYoung) || o in Offs(s.bigsOld)) && i < |s.pages| == |s.views|
    ensures o !in s.views[i].occ && !Inside(s.pages[i], o)
  {
    BigOffPage(s, o, i);
  }

  /** A surviving big object's header. */
  lemma BigSwept(m: Snap, s1: Snap, s: Snap, full: bool, o: nat)
    requires Marking(m, []) && AllSwept(m, s1, s, full) && (o in Offs(s.bigsYoung) || o in Offs(s.bigsOld))
    ensures (o in Offs(m.bigsYoung) || o in Offs(m.bigsOld)) && o in m.hdr && o in s.hdr && HasMark(Bits(m.hdr[o]))
    ensures s.hdr[o] == WithBits(m.hdr[o], SweptBits(Bits(m.hdr[o]), full))
    ensures o in Offs(s.bigsOld) ==> !full && HasMark(Bits(s.hdr[o]))
  {
    hide Bits, WithBits, Sound, Pick, SweepInv, YoungAfter, OldAfter, FreeAfter, Counted;
    BigsLeft(m, full, o);
    BigOutside(m, s1, full, o);
    PickOffs(m.hdr, m.bigsYoung, full, StaysYoung, o);
    SoundKeysOf(m, s1, full);
    BigsDistinct(m);
    if o in Offs(m.bigsOld) { assert OldBig(m.hdr, o, []); }
    WithBitsSame(m.hdr[o]);
  }

  lemma SoundKeysOf(m: Snap, s1: Snap, full: bool)
    requires SweepInv(m, s1, |m.pages|, full)
    ensures s1.hdr.Keys == m.hdr.Keys
  {
    hide Sound;
  }

  // --- the swept heap -------------------------------------------------------------------------------

  lemma AgedAreBig(m: Snap, full: bool)
    requires Marking(m, []) && AllIn(m.hdr, m.bigsYoung)
    ensures AgedOffs(m, full) <= Offs(m.bigsYoung) + Offs(m.bigsOld)
  {
    hide Bits, Sound, Pick;
    forall o | o in AgedOffs(m, full) ensures o in Offs(m.bigsYoung) + Offs(m.bigsOld) {
      PickOffs(m.hdr, m.bigsYoung, full, StaysYoung, o);
    }
  }

  lemma SweptSound(m: Snap, s1: Snap, s: Snap, full: bool)
    requires Marking(m, []) && AllSwept(m, s1, s, full)
    ensures Sound(s) && Objs(s) <= Objs(s1)
  {
    hide Bits, WithBits, TableOk, PoolsOk, LayoutOk, SweptAt, YoungAfter, OldAfter, FreeAfter, AgedOffs, PageMarking, InPages;
    AgedAreBig(m, full);
    HeadersKeepSound(s1, s.hdr);
    BlocksAfter(m, full);
    forall o | o in Offs(s.bigsYoung) || o in Offs(s.bigsOld) ensures o in Objs(s1) {
      BigsLeft(m, full, o);
    }
  }

  /** An object on a page keeps its header while big objects are swept. */
  lemma PageHeaders(m: Snap, s1: Snap, s: Snap, full: bool, i: nat, o: nat)
    requires Marking(m, []) && AllSwept(m, s1, s, full) && i < |s1.views| && o in s1.views[i].occ
    ensures o in s1.hdr && o in s.hdr && s.hdr[o] == s1.hdr[o]
  {
    hide Bits, WithBits, Sound, SweptAt, AgedOffs, Marking, YoungAfter, OldAfter, FreeAfter, Counted;
    AgedAreBig(m, full);
    SoundSizes(s1);
    OccIsObject(s1, i);
    if o in AgedOffs(m, full) {
      BigOutside(m, s1, full, o);
    }
  }

  lemma SweptValid(m: Snap, s1: Snap, s: Snap, full: bool)
    requires Marking(m, []) && AllSwept(m, s1, s, full)
    ensures Valid(s)
  {
    hide Bits, WithBits, Sound, Marking, YoungAfter, FreeAfter, AgedOffs, Aged, Counted;
    SweptSound(m, s1, s, full);
    SoundSizes(s);
    forall i | 0 <= i < |s.pages| && s.pages[i].inUse
      ensures PageFlags(s, i)
    {
      OccInHdr(s, i);
      assert SweptAt(m, s1, i, full);
      forall o | o in s.views[i].occ ensures o in s1.hdr && s.hdr[o] == s1.hdr[o] {
        PageHeaders(m, s1, s, full, i, o);
      }
    }
    forall o | o in Offs(s.bigsOld) ensures o in s.hdr && HasMark(Bits(s.hdr[o])) {
      BigSwept(m, s1, s, full, o);
    }
  }

  /** Any surviving object was allocated, and its header has moved on as the sweep says. */
  lemma SurvivorHeader(m: Snap, s1: Snap, s: Snap, full: bool, o: nat)
    requires Marking(m, []) && AllSwept(m, s1, s, full) && o in Objs(s)
    ensures o in Objs(m) && o in m.hdr && o in s.hdr && s.hdr[o] == WithBits(m.hdr[o], SweptBits(Bits(m.hdr[o]), full))
    ensures full || m.prevFull ==> HasMark(Bits(m.hdr[o]))
    ensures Bits(m.hdr[o]) != CLEAN
  {
    hide Bits, WithBits, Sound, YoungAfter, OldAfter, FreeAfter, AgedOffs, Aged, Counted, PageMarking;
    if o in PageObjs(s.views) {
      var i :| 0 <= i < |s.views| && o in s.views[i].occ;
      SoundSizes(s1);
      PageHeaders(m, s1, s, full, i, o);
      assert SweptAt(m, s1, i, full);
      OccIsObject(m, i);
    } else {
      BigSwept(m, s1, s, full, o);
      BigInHdr(m, o);
    }
  }

  /** Every marked object survives. */
  lemma MarkedSurvives(m: Snap, s1: Snap, s: Snap, full: bool, o: nat)
    requires Marking(m, []) && AllSwept(m, s1, s, full) && o in Objs(m) && o in m.hdr && HasMark(Bits(m.hdr[o]))
    ensures o in Objs(s)
  {
    hide Bits, WithBits, Sound, YoungAfter, OldAfter, FreeAfter, AgedOffs, Aged, Counted, PageMarking;
    if o in PageObjs(m.views) {
      var i :| 0 <= i < |m.views| && o in m.views[i].occ;
      assert SweptAt(m, s1, i, full);
      assert o in s.views[i].occ;
      OccIsObject(s, i);
    } else {
      BigsLeft(m, full, o);
    }
  }

  /** On the abstract heap: unmarked objects go, all of them if this sweep or the last is full, and
      states move on. */
  lemma SweptAbs(m: Snap, s1: Snap, s: Snap, full: bool)
    requires Marking(m, []) && AllSwept(m, s1, s, full)
    ensures Sound(m) && Sound(s) && SweepFrees(Abs(m), full, Objs(s)) && Objs(s) <= Objs(m)
    ensures Abs(s).refs == map o | o in Objs(s) :: Abs(m).refs[o]
    ensures Abs(s).bits == map o | o in Objs(s) :: SweptBits(Abs(m).bits[o], full)
    ensures Abs(s).remset == m.remembered && Abs(s).prevFull == full
  {
    hide Bits, WithBits, TypeOf, Sound, YoungAfter, OldAfter, FreeAfter, AgedOffs, Aged, Counted, PageMarking, Objs, SweptBits, AllSwept, RefsOf;
    SweptSound(m, s1, s, full);
    SoundKeys(m);
    SoundKeys(s);
    SweptRest(m, s1, s, full);
    forall o | o in Objs(s)
      ensures o in Objs(m) && o in m.hdr && o in s.hdr && Bits(s.hdr[o]) == SweptBits(Bits(m.hdr[o]), full) && RefsOf(s.hdr, s.body, o) == RefsOf(m.hdr, m.body, o)
      ensures Bits(m.hdr[o]) != CLEAN && (full || m.prevFull ==> HasMark(Bits(m.hdr[o])))
    {
      SurvivorHeader(m, s1, s, full, o);
      SweptWord(m.hdr[o], full);
      SameRefs(m, s, o);
    }
    forall o | o in MarkedSet(Abs(m)) ensures o in Objs(s) {
      MarkedSurvives(m, s1, s, full, o);
    }
    assert MarkedSet(Abs(m)) <= Objs(s);
    assert forall o :: o in Objs(s) ==> Abs(m).bits[o] != CLEAN;
    if full || m.prevFull {
      assert Objs(s) <= MarkedSet(Abs(m));
    }
  }

  lemma SweptRest(m: Snap, s1: Snap, s: Snap, full: bool)
    requires AllSwept(m, s1, s, full)
    ensures s.body == m.body && s.remembered == m.remembered && s.prevFull == full
  {
    hide Sound, SweptAt;
  }

  lemma SameRefs(m: Snap, s: Snap, o: nat)
    requires o in m.hdr && o in s.hdr && o in m.body && s.body == m.body && TypeOf(s.hdr[o]) == TypeOf(m.hdr[o])
    ensures RefsOf(s.hdr, s.body, o) == RefsOf(m.hdr, m.body, o)
  {
  }

  lemma SweptWord(w: nat, full: bool)
    ensures var w' := WithBits(w, SweptBits(Bits(w), full)); Bits(w') == SweptBits(Bits(w), full) && TypeOf(w') == TypeOf(w)
  {
    WithBitsSame(w);
    WithBitsBits(w, SweptBits(Bits(w), full));
  }

  // --- requeueing ----------------------------------------------------------------------------------

  function Requeued(h: Heap, r: seq<nat>): Heap {
    h.(bits := map o | o in h.bits :: if o in r then MARKED else h.bits[o])
  }

  /** Put one more remembered object back in the queued state. */
  lemma RequeueStep(h: Heap, s: Snap, done: seq<nat>, p: nat)
    requires Valid(s) && Abs(s) == Requeued(h, done) && p in h.bits && h.bits[p] == OLD_MARKED
    ensures p in Objs(s) && p in s.hdr
    ensures var s' := s.(hdr := SetBits(s.hdr, p, MARKED)); Valid(s') && Abs(s') == Requeued(h, done + [p])
  {
    hide Valid, Bits, WithBits, RefsOf, Objs;
    ValidKeys(s);
    assert p in Abs(s).bits && HasMark(Abs(s).bits[p]);
    assert Abs(s).bits.Keys == Objs(s);
    RemarkKeepsValid(s, p, MARKED);
    RemarkAbs(s, p, MARKED);
  }

  /** Sweeping and requeueing together are the model's sweep. */
  lemma RequeuedIsAfterSweep(m: Heap, h1: Heap, full: bool, left: set<nat>)
    requires left <= m.bits.Keys && left <= m.refs.Keys && (forall o :: o in m.remset ==> o in left && m.bits[o] == OLD_MARKED)
    requires h1.refs == map o | o in left :: m.refs[o]
    requires h1.bits == map o | o in left :: SweptBits(m.bits[o], full)
    requires h1.remset == m.remset && h1.prevFull == full
    ensures (if full then h1.(remset := []) else Requeued(h1, m.remset)) == AfterSweep(m, full, left)
  {
    hide SweptBits;
    if !full {
      assert Requeued(h1, m.remset).bits == AfterSweep(m, full, left).bits;
    }
  }

  // --- counting ------------------------------------------------------------------------------------------

  lemma {:induction false} OffsCount(bs: seq<Block>)
    requires DistinctOffs(bs)
    ensures |Offs(bs)| == |bs|
  {
    if bs != [] {
      var n := |bs| - 1;
      OffsCount(bs[..n]);
      assert bs == bs[..n] + [bs[n]];
      OffsConcat(bs[..n], [bs[n]]);
      assert Offs([bs[n]]) == {bs[n].0} by { assert [bs[n]][0].0 == bs[n].0; }
    }
  }

  lemma {:induction false} PageObjsCount(s: Snap, n: nat)
    requires Sound(s) && n <= |s.views|
    ensures |PageObjs(s.views[..n])| == SumLive(s.views[..n])
  {
    hide TableOk, LayoutOk, PoolsOk;
    if n > 0 {
      PageObjsCount(s, n - 1);
      var views := s.views[..n];
      assert views[..n - 1] == s.views[..n - 1];
      PageObjsLast(views);
      var before := PageObjs(s.views[..n - 1]);
      forall o | o in before ensures o !in s.views[n - 1].occ {
        var i :| 0 <= i < n - 1 && o in s.views[..n - 1][i].occ;
        if o in s.views[n - 1].occ { OnePage(s, i, n - 1, o); }
      }
    }
  }

  lemma PageObjsLast(views: seq<View>)
    requires views != []
    ensures PageObjs(views) == PageObjs(views[..|views| - 1]) + views[|views| - 1].occ
  {
    var n := |views| - 1;
    forall o: nat ensures o in PageObjs(views) <==> o in PageObjs(views[..n]) || o in views[n].occ {
      if o in PageObjs(views) {
        var i :| 0 <= i < |views| && o in views[i].occ;
        assert i < n ==> o in views[..n][i].occ;
      }
      if o in PageObjs(views[..n]) {
        var i :| 0 <= i < n && o in views[..n][i].occ;
        assert o in views[i].occ;
      }
    }
  }

  /** The live count is the number of allocated objects. */
  lemma LiveIsCount(s: Snap)
    requires Valid(s)
    ensures s.live == |Objs(s)| == |Abs(s).refs|
  {
    hide TableOk, LayoutOk, PoolsOk, AllFlagsOk, SumLive;
    assert s.views[..|s.views|] == s.views;
    PageObjsCount(s, |s.views|);
    BigsDistinct(s);
    OffsCount(s.bigsYoung);
    OffsCount(s.bigsOld);
    forall o | o in Offs(s.bigsYoung) || o in Offs(s.bigsOld) ensures o !in PageObjs(s.views) {
      BigNotOnPages(s, o);
    }
    var young := PageObjs(s.views) + Offs(s.bigsYoung);
    assert |young| == |PageObjs(s.views)| + |Offs(s.bigsYoung)|;
    assert |young + Offs(s.bigsOld)| == |young| + |Offs(s.bigsOld)|;
    assert Abs(s).refs.Keys == Objs(s);
    MapSize(Abs(s).refs);
  }

  lemma BigNotOnPages(s: Snap, o: nat)
    requires Sound(s) && (o in Offs(s.bigsYoung) || o in Offs(s.bigsOld))
    ensures o !in PageObjs(s.views)
  {
    hide TableOk, LayoutOk, PoolsOk;
    if o in PageObjs(s.views) {
      var i :| 0 <= i < |s.views| && o in s.views[i].occ;
      BigOffPage(s, o, i);
    }
  }

  lemma MapSize(m: map<nat, seq<nat>>)
    ensures |m| == |m.Keys|
  {
  }
}
