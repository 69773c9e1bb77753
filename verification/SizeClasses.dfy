/** The pool size classes. */
module SizeClasses {
  import opened Wrappers
  import opened GcPages

  /** Four and eight bytes, steps of eight, steps of sixteen, then sizes that pack a page well. */
  const SMALL: seq<nat> := [4, 8]
  const BY_8: seq<nat> := [16, 24, 32, 40, 48, 56, 64, 72, 80, 88, 96, 104, 112, 120, 128, 136]
  const BY_16: seq<nat> := [144, 160, 176, 192, 208, 224, 240, 256]
  const PACKED_1: seq<nat> := [272, 288, 304, 336, 368, 400, 448, 496]
  const PACKED_2: seq<nat> := [544, 576, 624, 672, 736, 816, 896, 1008]
  const PACKED_3: seq<nat> := [1088, 1168, 1248, 1360, 1488, 1632, 1808, 2032]
  const SIZE_CLASSES: seq<nat> := SMALL + BY_8 + BY_16 + PACKED_1 + PACKED_2 + PACKED_3

  /** `n` bytes is the least there is for `total`: the smallest size class that holds it, or for a big object the
      multiple of eight. */
  predicate Fits(total: nat, n: nat) {
    && total <= n
    && if total <= 2032 then n in SIZE_CLASSES && (forall c :: c in SIZE_CLASSES && total <= c ==> n <= c)
       else n < total + 8 && n % 8 == 0
  }

  /** The smallest size class that holds `total` bytes; none for a big object. */
  method SizeClass(total: nat) returns (r: Option<nat>)
    ensures r == ClassOf(total)
    ensures r.Some? ==> r.value in SIZE_CLASSES && total <= r.value && Fits(total, r.value)
    ensures r.None? <==> 2032 < total
  {
    SortedClasses();
    var i := 0;
    while i < |SIZE_CLASSES|
      invariant 0 <= i <= |SIZE_CLASSES| && forall j :: 0 <= j < i ==> SIZE_CLASSES[j] < total
      invariant ClassOf(total) == FirstClass(total, i)
    {
      if total <= SIZE_CLASSES[i] {
        return Some(SIZE_CLASSES[i]);
      }
      i := i + 1;
    }
    assert SIZE_CLASSES[|SIZE_CLASSES| - 1] == 2032;
    return None;
  }

  function FirstClass(total: nat, i: nat): Option<nat>
    requires i <= |SIZE_CLASSES|
    decreases |SIZE_CLASSES| - i
  {
    if i == |SIZE_CLASSES| then None
    else if total <= SIZE_CLASSES[i] then Some(SIZE_CLASSES[i])
    else FirstClass(total, i + 1)
  }

  function ClassOf(total: nat): Option<nat> { FirstClass(total, 0) }

  ghost predicate Ascends(s: seq<nat>) {
    forall i :: 0 <= i < |s| ==> (s[i] == 4 || GoodSize(s[i])) && (i + 1 < |s| ==> s[i] < s[i + 1])
  }

  lemma SteppedRows()
    ensures Ascends(SMALL) && Ascends(BY_8) && Ascends(BY_16)
  {
    assert forall i :: 0 <= i < 16 ==> BY_8[i] == 16 + 8 * i;
    assert forall i :: 0 <= i < 8 ==> BY_16[i] == 144 + 16 * i;
  }

  lemma PackedRows()
    ensures Ascends(PACKED_1) && Ascends(PACKED_2) && Ascends(PACKED_3)
  {
  }

  lemma AscendsConcat(a: seq<nat>, b: seq<nat>)
    requires Ascends(a) && Ascends(b) && a != [] && b != [] && a[|a| - 1] < b[0]
    ensures Ascends(a + b)
  {
    hide GoodSize;
    var s := a + b;
    forall i | 0 <= i < |s| ensures (s[i] == 4 || GoodSize(s[i])) && (i + 1 < |s| ==> s[i] < s[i + 1]) {
      assert i < |a| ==> s[i] == a[i];
      assert i >= |a| ==> s[i] == b[i - |a|];
      assert i + 1 < |s| && i + 1 >= |a| ==> s[i + 1] == b[i + 1 - |a|];
    }
  }

  lemma ClassesAscendStepwise()
    ensures Ascends(SIZE_CLASSES) && |SIZE_CLASSES| == 50 && SIZE_CLASSES[49] == 2032
  {
    hide Ascends;
    SteppedRows();
    PackedRows();
    AscendsConcat(SMALL, BY_8);
    AscendsConcat(SMALL + BY_8, BY_16);
    AscendsConcat(SMALL + BY_8 + BY_16, PACKED_1);
    AscendsConcat(SMALL + BY_8 + BY_16 + PACKED_1, PACKED_2);
    AscendsConcat(SMALL + BY_8 + BY_16 + PACKED_1 + PACKED_2, PACKED_3);
  }

  lemma {:induction false} AscendsFar(s: seq<nat>, i: nat, j: nat)
    requires Ascends(s) && i < j < |s|
    ensures s[i] < s[j]
  {
    hide GoodSize;
    assert s[j - 1] < s[j - 1 + 1];
    if i < j - 1 {
      AscendsFar(s, i, j - 1);
    }
  }

  lemma SortedClasses()
    ensures forall i, j :: 0 <= i < j < |SIZE_CLASSES| ==> SIZE_CLASSES[i] < SIZE_CLASSES[j]
    ensures |SIZE_CLASSES| == 50 && SIZE_CLASSES[49] == 2032
  {
    hide Ascends;
    ClassesAscendStepwise();
    forall i, j | 0 <= i < j < |SIZE_CLASSES| ensures SIZE_CLASSES[i] < SIZE_CLASSES[j] {
      AscendsFar(SIZE_CLASSES, i, j);
    }
  }

  lemma ClassIsGood(c: nat)
    requires c in SIZE_CLASSES && 8 <= c
    ensures GoodSize(c)
  {
    ClassesAscendStepwise();
  }
}
