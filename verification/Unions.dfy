/** Building a normalized union: flatten, drop what another member covers, order, nest. */
module Unions {
  import opened GroundTypes
  import opened UnionSearch

  /** The components of a type: the leaves of its union spine. */
  function Members(t: Type): seq<Type> {
    if t.Union? then Members(t.a) + Members(t.b) else [t]
  }

  function AllMembers(parts: seq<Type>): seq<Type> {
    if parts == [] then [] else AllMembers(parts[..|parts| - 1]) + Members(parts[|parts| - 1])
  }

  /** A preorder of these types, with the bottom type least. */
  ghost predicate Preorder(le: (Type, Type) -> bool, ts: seq<Type>) {
    && (forall x, y :: x in ts && y in ts && (x == y || x == Bottom) ==> le(x, y))
    && (forall x, y, z :: x in ts && y in ts && z in ts && le(x, y) && le(y, z) ==> le(x, z))
  }

  /** No member is below another. */
  predicate Antichain(le: (Type, Type) -> bool, ts: seq<Type>) {
    forall i, j :: 0 <= i < |ts| && 0 <= j < |ts| && i != j ==> !le(ts[i], ts[j])
  }

  ghost predicate CoveredBy(le: (Type, Type) -> bool, t: Type, ts: seq<Type>) {
    exists m :: m in ts && le(t, m)
  }

  method Flatten(t: Type, out: seq<Type>) returns (r: seq<Type>)
    ensures r == out + Members(t)
    decreases t
  {
    if t.Union? {
      r := Flatten(t.a, out);
      r := Flatten(t.b, r);
    } else {
      r := out + [t];
    }
  }

  // --- dropping covered members --------------------------------------------------------------------

  /** Whether `j` is a reason to drop `i`: it covers `i`, and is not an equal that comes later. */
  predicate Drops(le: (Type, Type) -> bool, comps: seq<Type>, keep: seq<bool>, i: nat, j: nat) {
    && i < |comps| && j < |comps| && j < |keep| && i != j && keep[j]
    && le(comps[i], comps[j]) && !(le(comps[j], comps[i]) && i < j)
  }

  ghost predicate CoveredAt(le: (Type, Type) -> bool, comps: seq<Type>, keep: seq<bool>, k: nat, j: nat) {
    k < |comps| && j < |comps| && j < |keep| && keep[j] && comps[j] != Bottom && le(comps[k], comps[j])
  }

  /** A component other than bottom is covered by something kept. */
  ghost predicate IsCovered(le: (Type, Type) -> bool, comps: seq<Type>, keep: seq<bool>, k: nat) {
    k < |comps| && comps[k] != Bottom ==> exists j: nat :: CoveredAt(le, comps, keep, k, j)
  }

  /** Nothing kept is a reason to drop `i`. */
  ghost predicate Stands(le: (Type, Type) -> bool, comps: seq<Type>, keep: seq<bool>, i: nat) {
    i < |comps| && comps[i] != Bottom && forall j: nat :: !Drops(le, comps, keep, i, j)
  }

  /** While dropping: everything is covered, and what has been looked at and kept stands. */
  ghost predicate DropInv(le: (Type, Type) -> bool, comps: seq<Type>, keep: seq<bool>, n: nat) {
    && |keep| == |comps| && n <= |comps|
    && (forall k: nat :: n <= k < |comps| ==> keep[k])
    && (forall k: nat :: IsCovered(le, comps, keep, k))
    && (forall i: nat :: i < n && keep[i] ==> Stands(le, comps, keep, i))
  }

  lemma StillCovered(le: (Type, Type) -> bool, comps: seq<Type>, keep: seq<bool>, n: nat, j: nat, k: nat)
    requires Preorder(le, comps) && |keep| == |comps| && n < |comps| && IsCovered(le, comps, keep, k)
    requires comps[n] == Bottom || Drops(le, comps, keep, n, j)
    requires forall i: nat :: i < n && keep[i] ==> comps[i] != Bottom
    ensures IsCovered(le, comps, keep[n := false], k)
  {
    var keep' := keep[n := false];
    if k < |comps| && comps[k] != Bottom {
      var q: nat :| CoveredAt(le, comps, keep, k, q);
      if q == n {
        // `n` is not bottom, so `j` covers it; and `j` is not bottom, or it would be a later equal of `n`.
        ThroughCover(le, comps, comps[k], comps[n], comps[j]);
        assert CoveredAt(le, comps, keep', k, j);
      } else {
        assert CoveredAt(le, comps, keep', k, q);
      }
    }
  }

  lemma ThroughCover(le: (Type, Type) -> bool, ts: seq<Type>, x: Type, y: Type, z: Type)
    requires Preorder(le, ts) && x in ts && y in ts && z in ts
    ensures (le(x, y) && le(y, z) ==> le(x, z)) && (z == Bottom ==> le(z, y)) && le(x, x)
  {
  }

  lemma DropOne(le: (Type, Type) -> bool, comps: seq<Type>, keep: seq<bool>, n: nat, j: nat)
    requires Preorder(le, comps) && DropInv(le, comps, keep, n) && n < |comps|
    requires comps[n] == Bottom || Drops(le, comps, keep, n, j)
    ensures DropInv(le, comps, keep[n := false], n + 1)
  {
    hide Preorder, IsCovered;
    var keep' := keep[n := false];
    forall i: nat | i < n && keep[i] ensures comps[i] != Bottom { assert Stands(le, comps, keep, i); }
    forall k: nat ensures IsCovered(le, comps, keep', k) {
      StillCovered(le, comps, keep, n, j, k);
    }
    forall i: nat | i < n + 1 && keep'[i] ensures Stands(le, comps, keep', i) {
      assert Stands(le, comps, keep, i);
      forall q: nat ensures !Drops(le, comps, keep', i, q) { assert !Drops(le, comps, keep, i, q); }
    }
  }

  lemma KeepOne(le: (Type, Type) -> bool, comps: seq<Type>, keep: seq<bool>, n: nat)
    requires DropInv(le, comps, keep, n) && n < |comps| && comps[n] != Bottom
    requires forall q: nat :: q < |comps| ==> !Drops(le, comps, keep, n, q)
    ensures DropInv(le, comps, keep, n + 1)
  {
    hide IsCovered, Drops;
    forall q: nat ensures !Drops(le, comps, keep, n, q) {
      if q >= |comps| { NotInRange(le, comps, keep, n, q); }
    }
  }

  lemma NotInRange(le: (Type, Type) -> bool, comps: seq<Type>, keep: seq<bool>, i: nat, q: nat)
    requires |comps| <= q
    ensures !Drops(le, comps, keep, i, q)
  {
  }

  lemma NothingDropped(le: (Type, Type) -> bool, comps: seq<Type>, keep: seq<bool>)
    requires Preorder(le, comps) && |keep| == |comps| && forall k :: 0 <= k < |keep| ==> keep[k]
    ensures DropInv(le, comps, keep, 0)
  {
    hide Preorder;
    forall k: nat ensures IsCovered(le, comps, keep, k) {
      if k < |comps| && comps[k] != Bottom {
        ThroughCover(le, comps, comps[k], comps[k], comps[k]);
        assert CoveredAt(le, comps, keep, k, k);
      }
    }
  }

  method DropCovered(le: (Type, Type) -> bool, comps: seq<Type>) returns (keep: seq<bool>)
    requires Preorder(le, comps)
    ensures DropInv(le, comps, keep, |comps|)
  {
    hide Preorder, IsCovered, Stands, Drops;
    keep := seq(|comps|, _ => true);
    NothingDropped(le, comps, keep);
    for i := 0 to |comps|
      invariant DropInv(le, comps, keep, i)
    {
      if comps[i] == Bottom {
        DropOne(le, comps, keep, i, i);
        keep := keep[i := false];
      } else {
        var j: nat := 0;
        while j < |comps| && !Drops(le, comps, keep, i, j)
          invariant j <= |comps| && forall q: nat :: q < j ==> !Drops(le, comps, keep, i, q)
        {
          j := j + 1;
        }
        if j < |comps| {
          DropOne(le, comps, keep, i, j);
          keep := keep[i := false];
        } else {
          KeepOne(le, comps, keep, i);
        }
      }
    }
  }

  function Kept(comps: seq<Type>, keep: seq<bool>): seq<Type>
    requires |keep| == |comps|
  {
    if comps == [] then []
    else
      var n := |comps| - 1;
      Kept(comps[..n], keep[..n]) + if keep[n] then [comps[n]] else []
  }

  /** Each survivor comes from its own position, in order. */
  lemma {:induction false} KeptAt(comps: seq<Type>, keep: seq<bool>, i: nat) returns (p: nat)
    requires |keep| == |comps| && i < |Kept(comps, keep)|
    ensures p < |comps| && keep[p] && comps[p] == Kept(comps, keep)[i] && |Kept(comps[..p], keep[..p])| == i
    decreases |comps|
  {
    var n := |comps| - 1;
    if i < |Kept(comps[..n], keep[..n])| {
      p := KeptAt(comps[..n], keep[..n], i);
      assert comps[..n][..p] == comps[..p] && keep[..n][..p] == keep[..p];
    } else {
      p := n;
    }
  }

  lemma {:induction false} KeptHas(comps: seq<Type>, keep: seq<bool>, p: nat)
    requires |keep| == |comps| && p < |comps| && keep[p]
    ensures comps[p] in Kept(comps, keep)
    decreases |comps|
  {
    var n := |comps| - 1;
    if p < n { KeptHas(comps[..n], keep[..n], p); }
  }

  /** Two that stand are not related. */
  lemma StandersUnrelated(le: (Type, Type) -> bool, comps: seq<Type>, keep: seq<bool>, p: nat, q: nat)
    requires |keep| == |comps| && p < |comps| && q < |comps| && p != q && keep[p] && keep[q]
    requires Stands(le, comps, keep, p) && Stands(le, comps, keep, q)
    ensures !le(comps[p], comps[q])
  {
    assert !Drops(le, comps, keep, p, q) && !Drops(le, comps, keep, q, p);
  }

  lemma KeptIsAntichain(le: (Type, Type) -> bool, comps: seq<Type>, keep: seq<bool>)
    requires DropInv(le, comps, keep, |comps|)
    ensures Antichain(le, Kept(comps, keep)) && Bottom !in Kept(comps, keep)
  {
    hide Stands, IsCovered, Kept;
    var ts := Kept(comps, keep);
    forall i: nat, j: nat | i < |ts| && j < |ts| && i != j ensures !le(ts[i], ts[j]) {
      var p := KeptAt(comps, keep, i);
      var q := KeptAt(comps, keep, j);
      StandersUnrelated(le, comps, keep, p, q);
    }
    forall i: nat | i < |ts| ensures ts[i] != Bottom {
      var p := KeptAt(comps, keep, i);
      StandsNotBottom(le, comps, keep, p);
    }
  }

  lemma StandsNotBottom(le: (Type, Type) -> bool, comps: seq<Type>, keep: seq<bool>, p: nat)
    requires Stands(le, comps, keep, p)
    ensures p < |comps| && comps[p] != Bottom
  {
  }

  lemma KeptCovers(le: (Type, Type) -> bool, comps: seq<Type>, keep: seq<bool>, t: Type)
    requires DropInv(le, comps, keep, |comps|) && t in comps && t != Bottom
    ensures CoveredBy(le, t, Kept(comps, keep))
  {
    hide Stands, Kept;
    var k: nat :| k < |comps| && comps[k] == t;
    assert IsCovered(le, comps, keep, k);
    var j: nat :| CoveredAt(le, comps, keep, k, j);
    KeptHas(comps, keep, j);
  }

  // --- ordering and nesting ---------------------------------------------------------------------------

  /** Insertion into place under any comparison. */
  function Insert(before: (Type, Type) -> bool, t: Type, ts: seq<Type>): (r: seq<Type>)
    ensures multiset(r) == multiset(ts) + multiset{t}
  {
    if ts == [] || before(t, ts[0]) then [t] + ts
    else
      assert ts == [ts[0]] + ts[1..];
      [ts[0]] + Insert(before, t, ts[1..])
  }

  /** A strict order, which may leave distinct types unordered. */
  ghost predicate Ordering(before: (Type, Type) -> bool) {
    && (forall x, y :: before(x, y) ==> !before(y, x))
    && (forall x, y, z :: before(x, y) && before(y, z) ==> before(x, z))
  }

  predicate Sorted(before: (Type, Type) -> bool, ts: seq<Type>) {
    forall i, j :: 0 <= i < j < |ts| ==> !before(ts[j], ts[i])
  }

  lemma {:induction false} InsertSorts(before: (Type, Type) -> bool, t: Type, ts: seq<Type>)
    requires Ordering(before) && Sorted(before, ts)
    ensures Sorted(before, Insert(before, t, ts))
  {
    if ts != [] && !before(t, ts[0]) {
      InsertSorts(before, t, ts[1..]);
      var r := Insert(before, t, ts[1..]);
      forall j | 0 <= j < |r| ensures !before(r[j], ts[0]) {
        assert r[j] in multiset(r);
      }
    }
  }

  method SortMembers(before: (Type, Type) -> bool, ts: seq<Type>) returns (r: seq<Type>)
    ensures multiset(r) == multiset(ts)
    ensures Ordering(before) ==> Sorted(before, r)
  {
    hide Ordering, Sorted, Insert;
    r := [];
    NothingToSort(before);
    for i := 0 to |ts|
      invariant multiset(r) == multiset(ts[..i]) && (Ordering(before) ==> Sorted(before, r))
    {
      if Ordering(before) { InsertSorts(before, ts[i], r); }
      r := Insert(before, ts[i], r);
      assert ts[..i + 1] == ts[..i] + [ts[i]];
    }
    assert ts[..|ts|] == ts;
  }

  lemma NothingToSort(before: (Type, Type) -> bool)
    ensures Sorted(before, [])
  {
  }

  lemma AntichainIsDistinct(le: (Type, Type) -> bool, ts: seq<Type>, t: Type)
    requires Preorder(le, ts) && Antichain(le, ts)
    ensures multiset(ts)[t] <= 1
  {
    hide Preorder;
    if t in ts {
      var i :| 0 <= i < |ts| && ts[i] == t;
      ThroughCover(le, ts, t, t, t);
      assert ts == ts[..i] + [t] + ts[i + 1..];
      assert t !in ts[..i] && t !in ts[i + 1..];
    }
  }

  /** Reordering keeps an antichain. */
  lemma AntichainReordered(le: (Type, Type) -> bool, ts: seq<Type>, r: seq<Type>)
    requires Preorder(le, ts) && Antichain(le, ts) && multiset(r) == multiset(ts)
    ensures Antichain(le, r)
  {
    forall i, j | 0 <= i < |r| && 0 <= j < |r| && i != j ensures !le(r[i], r[j]) {
      if r[i] == r[j] {
        AntichainIsDistinct(le, ts, r[i]);
        TwiceIn(r, i, j);
      } else {
        assert r[i] in multiset(r) && r[j] in multiset(r);
        assert r[i] in ts && r[j] in ts;
      }
    }
  }

  lemma TwiceIn(r: seq<Type>, i: nat, j: nat)
    requires i < |r| && j < |r| && i != j && r[i] == r[j]
    ensures multiset(r)[r[i]] >= 2
  {
    var lo, hi := if i < j then i else j, if i < j then j else i;
    assert r == r[..hi] + [r[hi]] + r[hi + 1..];
    assert r[lo] in r[..hi];
  }

  /** Nested to the right. */
  method BuildUnion(parts: seq<Type>) returns (t: Type)
    requires parts != [] && forall p :: p in parts ==> !p.Union?
    ensures Members(t) == parts
  {
    var n := |parts| - 1;
    t := parts[n];
    var k := n;
    while k > 0
      invariant 0 <= k <= n && Members(t) == parts[k..]
    {
      k := k - 1;
      t := Union(parts[k], t);
      assert parts[k..] == [parts[k]] + parts[k + 1..];
    }
  }

  lemma {:induction false} MembersAreFlat(t: Type, m: Type)
    requires m in Members(t)
    ensures !m.Union?
    decreases t
  {
    if t.Union? {
      if m in Members(t.a) { MembersAreFlat(t.a, m); } else { MembersAreFlat(t.b, m); }
    }
  }

  lemma {:induction false} AllMembersAreFlat(parts: seq<Type>, m: Type)
    requires m in AllMembers(parts)
    ensures !m.Union?
  {
    var n := |parts| - 1;
    if m in AllMembers(parts[..n]) { AllMembersAreFlat(parts[..n], m); } else { MembersAreFlat(parts[n], m); }
  }

  /** The normalized union: its members are components of the parts, none below another and in order, and every
      component other than the bottom type is below one of them; with no such component it is bottom. */
  method UnionOf(le: (Type, Type) -> bool, before: (Type, Type) -> bool, parts: seq<Type>) returns (t: Type)
    requires Preorder(le, AllMembers(parts))
    ensures Antichain(le, Members(t)) && forall m :: m in Members(t) ==> m in AllMembers(parts) || t == Bottom
    ensures forall c :: c in AllMembers(parts) && c != Bottom ==> CoveredBy(le, c, Members(t))
    ensures t == Bottom <==> forall c :: c in AllMembers(parts) ==> c == Bottom
    ensures Ordering(before) ==> Sorted(before, Members(t))
  {
    hide Preorder, DropInv, CoveredBy, Ordering;
    var comps := [];
    for i := 0 to |parts|
      invariant comps == AllMembers(parts[..i])
    {
      comps := Flatten(parts[i], comps);
      assert parts[..i + 1][..i] == parts[..i];
    }
    assert parts[..|parts|] == parts;
    var keep := DropCovered(le, comps);
    KeepSize(le, comps, keep);
    var survivors := Survivors(comps, keep);
    KeptIsAntichain(le, comps, keep);
    KeptComes(comps, keep);
    PreorderOfSome(le, comps, survivors);
    forall c | c in comps && c != Bottom ensures CoveredBy(le, c, survivors) { KeptCovers(le, comps, keep, c); }
    if survivors == [] {
      Uncovered(le, comps);
      return Bottom;
    }
    var ordered := SortMembers(before, survivors);
    AntichainReordered(le, survivors, ordered);
    SameMembers(survivors, ordered);
    forall p | p in ordered ensures !p.Union? { AllMembersAreFlat(parts, p); }
    t := BuildUnion(ordered);
    forall c | c in comps && c != Bottom ensures CoveredBy(le, c, ordered) { CoverReordered(le, c, survivors, ordered); }
    NotBottom(t, ordered);
    assert survivors[0] in survivors && survivors[0] in comps;
  }

  lemma PreorderOfSome(le: (Type, Type) -> bool, ts: seq<Type>, some: seq<Type>)
    requires Preorder(le, ts) && forall t :: t in some ==> t in ts
    ensures Preorder(le, some)
  {
  }

  lemma KeepSize(le: (Type, Type) -> bool, comps: seq<Type>, keep: seq<bool>)
    requires DropInv(le, comps, keep, |comps|)
    ensures |keep| == |comps|
  {
  }

  method Survivors(comps: seq<Type>, keep: seq<bool>) returns (r: seq<Type>)
    requires |keep| == |comps|
    ensures r == Kept(comps, keep)
  {
    r := [];
    for i := 0 to |comps|
      invariant r == Kept(comps[..i], keep[..i])
    {
      assert comps[..i + 1][..i] == comps[..i] && keep[..i + 1][..i] == keep[..i];
      if keep[i] {
        r := r + [comps[i]];
      }
    }
    assert comps[..|comps|] == comps && keep[..|comps|] == keep;
  }

  lemma KeptComes(comps: seq<Type>, keep: seq<bool>)
    requires |keep| == |comps|
    ensures forall t :: t in Kept(comps, keep) ==> t in comps
  {
    var ts := Kept(comps, keep);
    forall i | 0 <= i < |ts| ensures ts[i] in comps {
      var p := KeptAt(comps, keep, i);
    }
  }

  lemma Uncovered(le: (Type, Type) -> bool, comps: seq<Type>)
    requires forall t :: t in comps && t != Bottom ==> CoveredBy(le, t, [])
    ensures forall t :: t in comps ==> t == Bottom
  {
  }

  lemma SameMembers(ts: seq<Type>, r: seq<Type>)
    requires multiset(r) == multiset(ts)
    ensures |r| == |ts| && forall t :: t in r <==> t in ts
  {
    assert |multiset(r)| == |r| && |multiset(ts)| == |ts|;
    forall t ensures t in r <==> t in ts {
      assert t in multiset(r) <==> t in multiset(ts);
    }
  }

  lemma CoverReordered(le: (Type, Type) -> bool, c: Type, ts: seq<Type>, r: seq<Type>)
    requires CoveredBy(le, c, ts) && forall t :: t in r <==> t in ts
    ensures CoveredBy(le, c, r)
  {
  }

  lemma NotBottom(t: Type, ms: seq<Type>)
    requires Members(t) == ms && ms != [] && Bottom !in ms
    ensures t != Bottom
  {
  }

  // --- the normalized union of ground types ----------------------------------------------------------

  /** Whatever agrees with subtyping on these types is a preorder of them. */
  lemma BelowIsPreorder(h: Hierarchy, le: (Type, Type) -> bool, ts: seq<Type>)
    requires forall x, y :: x in ts && y in ts ==> le(x, y) == Below(h, x, y)
    ensures Preorder(le, ts)
  {
    hide Below;
    forall x, y | x in ts && y in ts && (x == y || x == Bottom) ensures le(x, y) {
      BelowItself(h, x);
      BottomIsLeast(h, y);
    }
    forall x, y, z | x in ts && y in ts && z in ts && le(x, y) && le(y, z) ensures le(x, z) {
      BelowTransitive(h, x, y, z);
    }
  }

  /** A type is below another exactly when its members are. */
  lemma {:induction false} BelowByMembers(h: Hierarchy, x: Type, y: Type)
    requires forall m :: m in Members(x) ==> Below(h, m, y)
    ensures Below(h, x, y)
    decreases x
  {
    if x.Union? {
      BelowByMembers(h, x.a, y);
      BelowByMembers(h, x.b, y);
    } else {
      assert x in Members(x);
    }
  }

  lemma {:induction false} MemberIsBelow(h: Hierarchy, x: Type, m: Type, y: Type)
    requires m in Members(x) && Below(h, x, y)
    ensures Below(h, m, y)
    decreases x
  {
    if x.Union? { MemberIsBelow(h, if m in Members(x.a) then x.a else x.b, m, y); }
  }

  lemma {:induction false} AllMembersHas(parts: seq<Type>, c: Type)
    ensures c in AllMembers(parts) <==> exists i :: 0 <= i < |parts| && c in Members(parts[i])
  {
    var n := |parts| - 1;
    if parts != [] {
      AllMembersHas(parts[..n], c);
      if i :| 0 <= i < |parts[..n]| && c in Members(parts[..n][i]) { assert c in Members(parts[i]); }
      if i :| 0 <= i < |parts| && c in Members(parts[i]) && i < n { assert c in Members(parts[..n][i]); }
    }
  }

  /** Above every part, and below everything that is. */
  ghost predicate LeastUpperBound(h: Hierarchy, parts: seq<Type>, t: Type) {
    && (forall p :: p in parts ==> Below(h, p, t))
    && (forall u :: (forall p :: p in parts ==> Below(h, p, u)) ==> Below(h, t, u))
  }

  lemma CoversPart(h: Hierarchy, le: (Type, Type) -> bool, parts: seq<Type>, t: Type, p: Type)
    requires p in parts && forall x, y :: le(x, y) ==> Below(h, x, y)
    requires forall c :: c in AllMembers(parts) && c != Bottom ==> CoveredBy(le, c, Members(t))
    ensures Below(h, p, t)
  {
    forall c | c in Members(p) ensures Below(h, c, t) {
      if c == Bottom {
        BottomIsLeast(h, t);
      } else {
        AllMembersHas(parts, c);
        var m :| m in Members(t) && le(c, m);
        BelowItself(h, t);
        MemberIsBelow(h, t, m, t);
        BelowTransitive(h, c, m, t);
      }
    }
    BelowByMembers(h, p, t);
  }

  /** What the normalized union promises is a least upper bound, whenever its comparison is subtyping on the components. */
  lemma NormalIsLeast(h: Hierarchy, le: (Type, Type) -> bool, parts: seq<Type>, t: Type)
    requires forall x, y :: le(x, y) ==> Below(h, x, y)
    requires forall m :: m in Members(t) ==> m in AllMembers(parts) || t == Bottom
    requires forall c :: c in AllMembers(parts) && c != Bottom ==> CoveredBy(le, c, Members(t))
    ensures LeastUpperBound(h, parts, t)
  {
    forall p | p in parts ensures Below(h, p, t) { CoversPart(h, le, parts, t, p); }
    forall u | forall p :: p in parts ==> Below(h, p, u) ensures Below(h, t, u) {
      BottomIsLeast(h, u);
      forall m | m in Members(t) ensures Below(h, m, u) {
        if t != Bottom {
          AllMembersHas(parts, m);
          var i :| 0 <= i < |parts| && m in Members(parts[i]);
          MemberIsBelow(h, parts[i], m, u);
        }
      }
      BelowByMembers(h, t, u);
    }
  }

  /** The answers of the subtype engine for every pair of these types. */
  method Answers(h: Hierarchy, same: (Type, Type) -> bool, ts: seq<Type>) returns (table: map<(Type, Type), bool>)
    requires Identity(same) && forall x :: x in ts ==> OnSpine(x)
    ensures forall x, y :: (x, y) in table <==> x in ts && y in ts
    ensures forall x, y :: (x, y) in table ==> table[(x, y)] == Below(h, x, y)
  {
    hide Identity, Below, OnSpine;
    table := map[];
    for i := 0 to |ts|
      invariant forall x, y :: (x, y) in table <==> x in ts[..i] && y in ts
      invariant forall x, y :: (x, y) in table ==> table[(x, y)] == Below(h, x, y)
    {
      for j := 0 to |ts|
        invariant forall x, y :: (x, y) in table <==> (x in ts[..i] && y in ts) || (x == ts[i] && y in ts[..j])
        invariant forall x, y :: (x, y) in table ==> table[(x, y)] == Below(h, x, y)
      {
        var ok := Subtype(h, same, ts[i], ts[j]);
        table := table[(ts[i], ts[j]) := ok];
        assert ts[..j + 1] == ts[..j] + [ts[j]];
      }
      assert ts[..|ts|] == ts && ts[..i + 1] == ts[..i] + [ts[i]];
    }
    assert ts[..|ts|] == ts;
  }

  /** With the answers of the subtype engine, the normalized union of parts whose components hold no unions inside is
      their least upper bound. */
  method GroundUnionOf(h: Hierarchy, same: (Type, Type) -> bool, before: (Type, Type) -> bool, parts: seq<Type>) returns (t: Type)
    requires Identity(same) && forall c :: c in AllMembers(parts) ==> OnSpine(c)
    ensures LeastUpperBound(h, parts, t)
    ensures forall i, j :: 0 <= i < |Members(t)| && 0 <= j < |Members(t)| && i != j ==> !Below(h, Members(t)[i], Members(t)[j])
    ensures Ordering(before) ==> Sorted(before, Members(t))
  {
    hide Identity, Below, OnSpine, Preorder, CoveredBy, Ordering, Sorted, LeastUpperBound;
    var comps := AllMembers(parts);
    var table := Answers(h, same, comps);
    var le := (x: Type, y: Type) => (x, y) in table && table[(x, y)];
    BelowIsPreorder(h, le, comps);
    t := UnionOf(le, before, parts);
    NormalIsLeast(h, le, parts, t);
    if t == Bottom { assert Members(t) == [Bottom]; }
  }
}
