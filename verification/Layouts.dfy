/** Struct layout: where each field goes, and reading and writing fields by their descriptors. */
module Layouts {
  /** A reference, a primitive of some size, or an immutable struct; a struct without fields is a singleton. */
  datatype FieldType = Boxed | Prim(size: nat) | Struct(fields: seq<FieldType>)

  datatype Desc = Desc(offset: nat, size: nat, isPtr: bool)

  function Max(a: nat, b: nat): nat { if a < b then b else a }

  function Clamp(n: nat): nat { if n < 1 then 1 else if n > 8 then 8 else n }

  predicate PowerOfTwo(al: nat) { al == 1 || al == 2 || al == 4 || al == 8 }

  /** Rounding up by masking, which is rounding to a multiple when the alignment is a power of two. */
  function RoundUp(n: nat, al: nat): nat
    requires 0 < al
  {
    (n + al - 1) / al * al
  }

  /** The sizes primitives come in. */
  predicate Sized(ft: FieldType) {
    match ft
    case Boxed => true
    case Prim(n) => PowerOfTwo(Clamp(n)) && n % Clamp(n) == 0
    case Struct(fs) => forall i :: 0 <= i < |fs| ==> Sized(fs[i])
  }

  predicate AllSized(fs: seq<FieldType>) {
    forall i :: 0 <= i < |fs| ==> Sized(fs[i])
  }

  // --- size and alignment ------------------------------------------------------------------------

  /** Stored inline: a primitive, or a struct all of whose fields are. */
  predicate Inline(ft: FieldType) {
    match ft
    case Boxed => false
    case Prim(_) => true
    case Struct(fs) => forall i :: 0 <= i < |fs| ==> Inline(fs[i])
  }

  /** Alignment as a field: a reference's, or the type's own. */
  function Align(ft: FieldType): (al: nat)
    requires Sized(ft)
    ensures PowerOfTwo(al)
    decreases ft, 1
  {
    if !Inline(ft) then 4
    else match ft
      case Prim(n) => Clamp(n)
      case Struct(fs) => AlignOf(ft, |fs|)
  }

  /** The greatest alignment among the first `k` fields. */
  function AlignOf(ft: FieldType, k: nat): (al: nat)
    requires ft.Struct? && Sized(ft) && k <= |ft.fields|
    ensures PowerOfTwo(al) && forall i :: 0 <= i < k ==> Align(ft.fields[i]) <= al
    decreases ft, 0, k
  {
    if k == 0 then 1 else Max(AlignOf(ft, k - 1), Align(ft.fields[k - 1]))
  }

  function Size(ft: FieldType): nat
    requires Sized(ft)
    decreases ft, 2
  {
    if !Inline(ft) then 4
    else match ft
      case Prim(n) => n
      case Struct(fs) => RoundUp(EndAt(ft, |fs|), AlignOf(ft, |fs|))
  }

  /** Where the first `k` fields end. */
  function EndAt(ft: FieldType, k: nat): nat
    requires ft.Struct? && Sized(ft) && k <= |ft.fields|
    decreases ft, 0, k
  {
    if k == 0 then 0
    else RoundUp(EndAt(ft, k - 1), Align(ft.fields[k - 1])) + Size(ft.fields[k - 1])
  }

  function OffsetAt(ft: FieldType, i: nat): nat
    requires ft.Struct? && Sized(ft) && i < |ft.fields|
  {
    RoundUp(EndAt(ft, i), Align(ft.fields[i]))
  }

  /** The size of an instance, references and all. */
  function InstanceSize(ft: FieldType): nat
    requires ft.Struct? && Sized(ft)
  {
    RoundUp(EndAt(ft, |ft.fields|), AlignOf(ft, |ft.fields|))
  }

  // --- arithmetic -----------------------------------------------------------------------------------

  lemma RoundedUp(n: nat, al: nat)
    requires PowerOfTwo(al)
    ensures n <= RoundUp(n, al) < n + al && RoundUp(n, al) % al == 0
  {
  }

  lemma EightByFour(n: nat)
    requires n % 8 == 0
    ensures n % 4 == 0
  {
    var k := n / 8;
    assert n == 4 * (k + k);
  }

  lemma FourByTwo(n: nat)
    requires n % 4 == 0
    ensures n % 2 == 0
  {
    var k := n / 4;
    assert n == 2 * (k + k);
  }

  /** Smaller powers of two divide larger ones. */
  lemma Divides(a: nat, b: nat, n: nat)
    requires PowerOfTwo(a) && PowerOfTwo(b) && a <= b && n % b == 0
    ensures n % a == 0
  {
    if b == 8 { EightByFour(n); }
    if b >= 4 && a <= 2 { FourByTwo(n); }
  }

  // --- fields are in order, apart and inside ----------------------------------------------------------

  lemma {:induction false} EndsGrow(ft: FieldType, i: nat, k: nat)
    requires ft.Struct? && Sized(ft) && i < k <= |ft.fields|
    ensures OffsetAt(ft, i) + Size(ft.fields[i]) <= EndAt(ft, k)
    decreases k
  {
    hide RoundUp, Align, Size;
    RoundedUp(EndAt(ft, k - 1), Align(ft.fields[k - 1]));
    if i < k - 1 {
      EndsGrow(ft, i, k - 1);
    }
  }

  /** Each field is aligned, comes after every earlier field and lies inside the instance, whose size is a
      multiple of the struct's alignment, which every field's alignment divides. */
  lemma LayoutIsSound(ft: FieldType, i: nat)
    requires ft.Struct? && Sized(ft) && i < |ft.fields|
    ensures OffsetAt(ft, i) % Align(ft.fields[i]) == 0
    ensures forall j :: i < j < |ft.fields| ==> OffsetAt(ft, i) + Size(ft.fields[i]) <= OffsetAt(ft, j)
    ensures OffsetAt(ft, i) + Size(ft.fields[i]) <= InstanceSize(ft)
    ensures InstanceSize(ft) % AlignOf(ft, |ft.fields|) == 0 && Align(ft.fields[i]) <= AlignOf(ft, |ft.fields|)
  {
    hide RoundUp, Align, Size, EndAt;
    RoundedUp(EndAt(ft, i), Align(ft.fields[i]));
    forall j | i < j < |ft.fields| ensures OffsetAt(ft, i) + Size(ft.fields[i]) <= OffsetAt(ft, j) {
      EndsGrow(ft, i, j);
      RoundedUp(EndAt(ft, j), Align(ft.fields[j]));
    }
    EndsGrow(ft, i, |ft.fields|);
    RoundedUp(EndAt(ft, |ft.fields|), AlignOf(ft, |ft.fields|));
  }

  /** A part of a struct, through any depth of inline structs: a list of field numbers. */
  predicate IsPath(ft: FieldType, path: seq<nat>) {
    path == [] || (ft.Struct? && path[0] < |ft.fields| && (path[1..] == [] || Inline(ft.fields[path[0]])) && IsPath(ft.fields[path[0]], path[1..]))
  }

  function PartOf(ft: FieldType, path: seq<nat>): FieldType
    requires IsPath(ft, path)
  {
    if path == [] then ft else PartOf(ft.fields[path[0]], path[1..])
  }

  function PathOffset(ft: FieldType, path: seq<nat>): nat
    requires Sized(ft) && IsPath(ft, path)
  {
    if path == [] then 0 else OffsetAt(ft, path[0]) + PathOffset(ft.fields[path[0]], path[1..])
  }

  /** Parts of nested inline structs are aligned and inside, wherever an aligned copy of the whole is placed. */
  lemma {:induction false} NestedIsSound(ft: FieldType, path: seq<nat>, at: nat)
    requires Sized(ft) && IsPath(ft, path) && path != [] && at % AlignOf(ft, |ft.fields|) == 0
    ensures Sized(PartOf(ft, path)) && (at + PathOffset(ft, path)) % Align(PartOf(ft, path)) == 0
    ensures PathOffset(ft, path) + Size(PartOf(ft, path)) <= InstanceSize(ft)
    decreases |path|
  {
    hide RoundUp, EndAt, AlignOf, OffsetAt;
    var i, rest := path[0], path[1..];
    var f, off := ft.fields[i], OffsetAt(ft, i);
    LayoutIsSound(ft, i);
    FieldAligned(at, off, AlignOf(ft, |ft.fields|), Align(f));
    if rest == [] {
      assert PathOffset(f, rest) == 0 && PartOf(f, rest) == f;
    } else {
      InlineStruct(f);
      NestedIsSound(f, rest, at + off);
    }
  }

  lemma FieldAligned(at: nat, off: nat, whole: nat, al: nat)
    requires PowerOfTwo(whole) && PowerOfTwo(al) && al <= whole && at % whole == 0 && off % al == 0
    ensures (at + off) % al == 0
  {
    Divides(al, whole, at);
  }

  lemma InlineStruct(f: FieldType)
    requires Sized(f) && Inline(f) && f.Struct?
    ensures Align(f) == AlignOf(f, |f.fields|) && Size(f) == InstanceSize(f)
  {
  }

  // --- computing a layout ---------------------------------------------------------------------------------

  function DescAt(ft: FieldType, i: nat): Desc
    requires ft.Struct? && Sized(ft) && i < |ft.fields|
  {
    Desc(OffsetAt(ft, i), Size(ft.fields[i]), !Inline(ft.fields[i]))
  }

  /** Offsets of the reference fields among the first `k`. */
  function Pointers(ft: FieldType, k: nat): seq<nat>
    requires ft.Struct? && Sized(ft) && k <= |ft.fields|
    decreases k
  {
    if k == 0 then [] else Pointers(ft, k - 1) + if Inline(ft.fields[k - 1]) then [] else [OffsetAt(ft, k - 1)]
  }

  /** The pointer list is exactly the reference fields. */
  lemma {:induction false} PointersAreReferences(ft: FieldType, k: nat, p: nat)
    requires ft.Struct? && Sized(ft) && k <= |ft.fields|
    ensures p in Pointers(ft, k) <==> exists i :: 0 <= i < k && !Inline(ft.fields[i]) && OffsetAt(ft, i) == p
    decreases k
  {
    hide OffsetAt, Inline;
    if k > 0 {
      PointersAreReferences(ft, k - 1, p);
    }
  }

  // --- what a layout is, by its descriptors -----------------------------------------------------------------

  /** `off` is the least multiple of `al` that is not below `from`. */
  ghost predicate LeastAligned(off: nat, al: nat, from: nat) {
    0 < al && from <= off && off % al == 0 && forall m: nat :: from <= m < off ==> m % al != 0
  }

  function EndBefore(descs: seq<Desc>, i: nat): nat
    requires i <= |descs|
  {
    if i == 0 then 0 else descs[i - 1].offset + descs[i - 1].size
  }

  ghost predicate Greatest(m: nat, als: seq<nat>) {
    1 <= m && (m == 1 || m in als) && forall a :: a in als ==> a <= m
  }

  /** Size, alignment and kind of a field: a primitive has its own size, aligned to it within 1 and 8; a struct whose own
      layout holds no reference has that layout's size and alignment; anything else is a reference of four bytes. */
  ghost predicate FieldIs(ft: FieldType, size: nat, al: nat, isPtr: bool)
    decreases ft, 1
  {
    match ft
    case Boxed => size == 4 && al == 4 && isPtr
    case Prim(n) => size == n && al == (if n == 0 then 1 else if n > 8 then 8 else n) && !isPtr
    case Struct(_) =>
      exists total: nat, m: nat, als, descs ::
        && IsLayout(ft, total, m, als, descs)
        && if HasReference(descs) then size == 4 && al == 4 && isPtr else size == total && al == m && !isPtr
  }

  predicate HasReference(descs: seq<Desc>) { exists k :: 0 <= k < |descs| && descs[k].isPtr }

  /** Each field at the least aligned offset after the one before, and the whole padded to the greatest alignment. */
  ghost predicate IsLayout(ft: FieldType, total: nat, m: nat, als: seq<nat>, descs: seq<Desc>)
    requires ft.Struct?
    decreases ft, 0
  {
    && |als| == |descs| == |ft.fields|
    && (forall i :: 0 <= i < |ft.fields| ==> FieldIs(ft.fields[i], descs[i].size, als[i], descs[i].isPtr))
    && (forall i :: 0 <= i < |descs| ==> LeastAligned(descs[i].offset, als[i], EndBefore(descs, i)))
    && Greatest(m, als) && LeastAligned(total, m, EndBefore(descs, |descs|))
  }

  function PointerOffsets(descs: seq<Desc>): seq<nat> {
    if descs == [] then []
    else PointerOffsets(descs[..|descs| - 1]) + if descs[|descs| - 1].isPtr then [descs[|descs| - 1].offset] else []
  }

  lemma RoundedIsLeast(n: nat, al: nat)
    requires PowerOfTwo(al)
    ensures LeastAligned(RoundUp(n, al), al, n)
  {
    RoundedUp(n, al);
    var off := RoundUp(n, al);
    hide RoundUp;
    forall m: nat | n <= m < off ensures m % al != 0 { NoneBetween(m, off, al); }
  }

  lemma NoneBetween(m: nat, off: nat, al: nat)
    requires PowerOfTwo(al) && off % al == 0 && m < off < m + al
    ensures m % al != 0
  {
  }

  function Descs(ft: FieldType): (r: seq<Desc>)
    requires ft.Struct? && Sized(ft)
    ensures |r| == |ft.fields| && forall i :: 0 <= i < |r| ==> r[i] == DescAt(ft, i)
  {
    seq(|ft.fields|, i requires 0 <= i < |ft.fields| => DescAt(ft, i))
  }

  function Aligns(ft: FieldType): (r: seq<nat>)
    requires ft.Struct? && Sized(ft)
    ensures |r| == |ft.fields| && forall i :: 0 <= i < |r| ==> r[i] == Align(ft.fields[i])
  {
    seq(|ft.fields|, i requires 0 <= i < |ft.fields| => Align(ft.fields[i]))
  }

  lemma {:induction false} AlignIsGreatest(ft: FieldType, k: nat)
    requires ft.Struct? && Sized(ft) && k <= |ft.fields|
    ensures Greatest(AlignOf(ft, k), Aligns(ft)[..k])
    decreases k
  {
    hide Align;
    if k > 0 {
      AlignIsGreatest(ft, k - 1);
      var als := Aligns(ft);
      assert als[..k] == als[..k - 1] + [als[k - 1]];
      assert als[k - 1] == Align(ft.fields[k - 1]);
    }
  }

  lemma {:induction false} FieldHolds(ft: FieldType)
    requires Sized(ft)
    ensures FieldIs(ft, Size(ft), Align(ft), !Inline(ft))
    decreases ft, 1
  {
    if ft.Struct? {
      LayoutHolds(ft);
      var descs := Descs(ft);
      assert HasReference(descs) <==> !Inline(ft) by {
        if !Inline(ft) {
          var k :| 0 <= k < |ft.fields| && !Inline(ft.fields[k]);
          assert descs[k].isPtr;
        }
      }
      hide IsLayout;
      assert IsLayout(ft, InstanceSize(ft), AlignOf(ft, |ft.fields|), Aligns(ft), descs);
    }
  }

  /** The layout computed from sizes and alignments is one. */
  lemma {:induction false} LayoutHolds(ft: FieldType)
    requires ft.Struct? && Sized(ft)
    ensures IsLayout(ft, InstanceSize(ft), AlignOf(ft, |ft.fields|), Aligns(ft), Descs(ft))
    decreases ft, 0
  {
    hide RoundUp, Size, Align, FieldIs, LeastAligned, Greatest, Inline;
    var descs, als := Descs(ft), Aligns(ft);
    forall i | 0 <= i < |ft.fields| ensures FieldIs(ft.fields[i], descs[i].size, als[i], descs[i].isPtr) {
      FieldHolds(ft.fields[i]);
    }
    forall i | 0 <= i < |descs| ensures LeastAligned(descs[i].offset, als[i], EndBefore(descs, i)) {
      EndIs(ft, i);
      RoundedIsLeast(EndAt(ft, i), Align(ft.fields[i]));
    }
    AlignIsGreatest(ft, |ft.fields|);
    assert als[..|ft.fields|] == als;
    EndIs(ft, |ft.fields|);
    RoundedIsLeast(EndAt(ft, |ft.fields|), AlignOf(ft, |ft.fields|));
  }

  lemma EndIs(ft: FieldType, k: nat)
    requires ft.Struct? && Sized(ft) && k <= |ft.fields|
    ensures EndBefore(Descs(ft), k) == EndAt(ft, k)
  {
    hide RoundUp, Size, Align, Inline;
  }

  lemma {:induction false} PointersAreOffsets(ft: FieldType, k: nat)
    requires ft.Struct? && Sized(ft) && k <= |ft.fields|
    ensures Pointers(ft, k) == PointerOffsets(Descs(ft)[..k])
    decreases k
  {
    hide Inline, OffsetAt, Size;
    if k > 0 {
      PointersAreOffsets(ft, k - 1);
      assert Descs(ft)[..k][..k - 1] == Descs(ft)[..k - 1];
    }
  }

  /** One pass over the fields. */
  method ComputeFieldOffsets(fs: seq<FieldType>) returns (size: nat, ptrs: seq<nat>, descs: seq<Desc>, ghost als: seq<nat>, ghost m: nat)
    requires AllSized(fs)
    ensures IsLayout(Struct(fs), size, m, als, descs) && ptrs == PointerOffsets(descs)
    ensures var ft := Struct(fs);
            && size == InstanceSize(ft) && ptrs == Pointers(ft, |fs|) && |descs| == |fs|
            && forall i :: 0 <= i < |fs| ==> descs[i] == DescAt(ft, i)
  {
    hide RoundUp, Align, Size, Inline, IsLayout;
    ghost var ft := Struct(fs);
    descs, ptrs := [], [];
    var off, alignM := 0, 1;
    for i := 0 to |fs|
      invariant off == EndAt(ft, i) && alignM == AlignOf(ft, i) && ptrs == Pointers(ft, i)
      invariant |descs| == i && forall k :: 0 <= k < i ==> descs[k] == DescAt(ft, k)
    {
      var al, fsz := Align(fs[i]), Size(fs[i]);
      off := RoundUp(off, al);
      alignM := Max(alignM, al);
      if !Inline(fs[i]) {
        ptrs := ptrs + [off];
      }
      descs := descs + [Desc(off, fsz, !Inline(fs[i]))];
      off := off + fsz;
    }
    size := RoundUp(off, alignM);
    als, m := Aligns(ft), alignM;
    assert descs == Descs(ft);
    LayoutHolds(ft);
    PointersAreOffsets(ft, |fs|);
    assert Descs(ft)[..|fs|] == Descs(ft);
  }

  // --- reading and writing fields ----------------------------------------------------------------------------

  function Slice(bytes: seq<bv8>, d: Desc): seq<bv8>
    requires d.offset + d.size <= |bytes|
  {
    bytes[d.offset..d.offset + d.size]
  }

  /** Descriptors that do not overlap and fit. */
  predicate Fits(descs: seq<Desc>, size: nat) {
    && (forall i :: 0 <= i < |descs| ==> descs[i].offset + descs[i].size <= size)
    && (forall i, j :: 0 <= i < j < |descs| ==> descs[i].offset + descs[i].size <= descs[j].offset)
  }

  lemma LayoutFits(fs: seq<FieldType>, size: nat, descs: seq<Desc>)
    requires AllSized(fs) && size == InstanceSize(Struct(fs)) && |descs| == |fs|
    requires forall i :: 0 <= i < |fs| ==> descs[i] == DescAt(Struct(fs), i)
    ensures Fits(descs, size)
  {
    hide RoundUp, Align, Size, OffsetAt, InstanceSize;
    forall i | 0 <= i < |fs| ensures descs[i].offset + descs[i].size <= size { LayoutIsSound(Struct(fs), i); }
    forall i, j | 0 <= i < j < |fs| ensures descs[i].offset + descs[i].size <= descs[j].offset { LayoutIsSound(Struct(fs), i); }
  }

  class Instance {
    const descs: seq<Desc>
    const bytes: array<bv8>

    ghost predicate Valid()
      reads this
    {
      Fits(descs, bytes.Length)
    }

    ghost function Field(i: nat): seq<bv8>
      requires Valid() && i < |descs|
      reads this, bytes
    {
      Slice(bytes[..], descs[i])
    }

    /** An instance of the struct with these fields. */
    constructor (fs: seq<FieldType>)
      requires AllSized(fs)
      ensures Valid() && fresh(bytes) && exists als, m: nat :: IsLayout(Struct(fs), bytes.Length, m, als, descs)
    {
      hide IsLayout;
      var size, ptrs, ds, als, m := ComputeFieldOffsets(fs);
      LayoutFits(fs, size, ds);
      descs := ds;
      bytes := new bv8[size](_ => 0);
    }

    /** Store a payload: that field reads as the payload, every other as before. */
    method SetField(i: nat, payload: seq<bv8>)
      requires Valid() && i < |descs| && |payload| == descs[i].size
      modifies bytes
      ensures Field(i) == payload && forall j :: 0 <= j < |descs| && j != i ==> Field(j) == old(Field(j))
    {
      var d := descs[i];
      for k := 0 to d.size
        invariant forall q :: 0 <= q < bytes.Length ==> bytes[q] == if d.offset <= q < d.offset + k then payload[q - d.offset] else old(bytes[q])
      {
        bytes[d.offset + k] := payload[k];
      }
      forall j | 0 <= j < |descs| && j != i ensures Field(j) == old(Field(j)) {
        var e := descs[j];
        assert e.offset + e.size <= d.offset || d.offset + d.size <= e.offset;
        assert forall q :: e.offset <= q < e.offset + e.size ==> bytes[q] == old(bytes[q]);
      }
    }

    /** Read a field into a fresh box. */
    method GetField(i: nat) returns (payload: seq<bv8>)
      requires Valid() && i < |descs|
      ensures payload == Field(i)
    {
      payload := bytes[descs[i].offset..descs[i].offset + descs[i].size];
    }
  }
}
