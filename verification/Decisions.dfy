/** Decision trees with left and right choices, the bit strings that guide a traversal, and why counting
    up from the deepest open choice misses nothing. */
module Decisions {
  /** What a query looks like to the machine: where it reads a left or a right bit, and how it ends. */
  datatype Tree = Leaf(ok: bool) | Left(zero: Tree, one: Tree) | Right(zero: Tree, one: Tree)

  /** Bits past the end of a string are 0. */
  function At(s: seq<bool>, i: nat): bool { i < |s| && s[i] }

  /** The answer a traversal reaches, reading left bits from `i` on and right bits from `j` on. */
  predicate Leads(t: Tree, l: seq<bool>, i: nat, r: seq<bool>, j: nat) {
    match t
    case Leaf(ok) => ok
    case Left(a, b) => Leads(if At(l, i) then b else a, l, i + 1, r, j)
    case Right(a, b) => Leads(if At(r, j) then b else a, l, i, r, j + 1)
  }

  /** Where the traversal leaves its two cursors. */
  function LeftEnd(t: Tree, l: seq<bool>, i: nat, r: seq<bool>, j: nat): (e: nat)
    ensures i <= e
  {
    match t
    case Leaf(_) => i
    case Left(a, b) => LeftEnd(if At(l, i) then b else a, l, i + 1, r, j)
    case Right(a, b) => LeftEnd(if At(r, j) then b else a, l, i, r, j + 1)
  }

  function RightEnd(t: Tree, l: seq<bool>, i: nat, r: seq<bool>, j: nat): (e: nat)
    ensures j <= e
  {
    match t
    case Leaf(_) => j
    case Left(a, b) => RightEnd(if At(l, i) then b else a, l, i + 1, r, j)
    case Right(a, b) => RightEnd(if At(r, j) then b else a, l, i, r, j + 1)
  }

  /** One past the last 0 among the bits from `from` up to `end`, or `was` when all are 1. */
  function LastZero(s: seq<bool>, from: nat, end: nat, was: nat): nat
    decreases end
  {
    if end <= from then was
    else if !At(s, end - 1) then end
    else LastZero(s, from, end - 1, was)
  }

  lemma {:induction false} LastZeroIs(s: seq<bool>, from: nat, end: nat, was: nat)
    requires from <= end && was <= from
    ensures var m := LastZero(s, from, end, was); (m == was || (from < m && !At(s, m - 1))) && m <= end
    ensures forall k: nat :: from <= k < end && LastZero(s, from, end, was) <= k ==> At(s, k)
    decreases end
  {
    if from < end && At(s, end - 1) {
      LastZeroIs(s, from, end - 1, was);
    }
  }

  // --- strings ---------------------------------------------------------------------------------------

  predicate Agree(a: seq<bool>, b: seq<bool>, n: nat) {
    forall k: nat :: k < n ==> At(a, k) == At(b, k)
  }

  predicate LessAt(a: seq<bool>, b: seq<bool>, k: nat) {
    Agree(a, b, k) && !At(a, k) && At(b, k)
  }

  /** Dictionary order. */
  ghost predicate Less(a: seq<bool>, b: seq<bool>) {
    exists k: nat :: LessAt(a, b, k)
  }

  /** Two strings agree on a prefix or one is less than the other. */
  lemma {:induction false} Compare(a: seq<bool>, b: seq<bool>, n: nat)
    ensures Agree(a, b, n) || Less(a, b) || Less(b, a)
  {
    if n > 0 {
      Compare(a, b, n - 1);
      if Agree(a, b, n - 1) && At(a, n - 1) != At(b, n - 1) {
        assert LessAt(a, b, n - 1) || LessAt(b, a, n - 1);
      }
    }
  }

  /** Only the bits read matter. */
  lemma {:induction false} OnlyReadBits(t: Tree, l: seq<bool>, l': seq<bool>, i: nat, r: seq<bool>, r': seq<bool>, j: nat)
    requires Agree(l, l', LeftEnd(t, l, i, r, j)) && Agree(r, r', RightEnd(t, l, i, r, j))
    ensures Leads(t, l', i, r', j) == Leads(t, l, i, r, j)
    ensures LeftEnd(t, l', i, r', j) == LeftEnd(t, l, i, r, j) && RightEnd(t, l', i, r', j) == RightEnd(t, l, i, r, j)
  {
    match t
    case Leaf(_) =>
    case Left(a, b) => OnlyReadBits(if At(l, i) then b else a, l, l', i + 1, r, r', j);
    case Right(a, b) => OnlyReadBits(if At(r, j) then b else a, l, l', i, r, r', j + 1);
  }

  // --- counting up -----------------------------------------------------------------------------------------

  /** The next string when `m - 1` is the deepest 0 read. */
  function Bumped(s: seq<bool>, m: nat): seq<bool>
    requires 0 < m
  {
    seq(m - 1, (i: nat) => At(s, i)) + [true]
  }

  lemma BumpedAt(s: seq<bool>, m: nat, k: nat)
    requires 0 < m
    ensures At(Bumped(s, m), k) == if k < m - 1 then At(s, k) else k == m - 1
  {
  }

  /** Every string below the next one is below this one, or agrees with it on all `d` bits that were read. */
  lemma NextMissesNone(s: seq<bool>, d: nat, m: nat, x: seq<bool>)
    requires m <= d && (0 < m ==> !At(s, m - 1)) && forall k: nat :: m <= k < d ==> At(s, k)
    requires 0 < m ==> Less(x, Bumped(s, m))
    ensures Less(x, s) || Agree(s, x, d)
  {
    Compare(x, s, d);
    if !Agree(x, s, d) && !Less(x, s) {
      var k: nat :| LessAt(s, x, k);
      if m == 0 {
        BeyondRead(s, d, m, x, k);
      } else {
        var p: nat :| LessAt(x, Bumped(s, m), p);
        BumpedAt(s, m, p);
        forall q: nat ensures At(Bumped(s, m), q) == if q < m - 1 then At(s, q) else q == m - 1 { BumpedAt(s, m, q); }
        BelowNext(s, d, m, x, k, p);
      }
    }
  }

  /** If `x` exceeds `s` first at `k`, and no 0 of `s` was read there, then `k` was not read. */
  lemma BeyondRead(s: seq<bool>, d: nat, m: nat, x: seq<bool>, k: nat)
    requires LessAt(s, x, k) && m <= d && (forall q: nat :: m <= q < d ==> At(s, q)) && m <= k
    ensures Agree(s, x, d)
  {
  }

  lemma BelowNext(s: seq<bool>, d: nat, m: nat, x: seq<bool>, k: nat, p: nat)
    requires 0 < m <= d && LessAt(s, x, k) && forall q: nat :: m <= q < d ==> At(s, q)
    requires var n := Bumped(s, m); LessAt(x, n, p) && forall q: nat :: At(n, q) == if q < m - 1 then At(s, q) else q == m - 1
    ensures Agree(s, x, d)
  {
    assert p <= m - 1;
    // Below `p` the strings `x` and `s` both have what the next string has, and both have 0 at `p`.
    assert forall q: nat :: q < p ==> At(x, q) == At(Bumped(s, m), q);
    assert m <= k;
  }

  // --- only finitely many strings ----------------------------------------------------------------------

  function Height(t: Tree): nat {
    match t
    case Leaf(_) => 0
    case Left(a, b) => 1 + Max(Height(a), Height(b))
    case Right(a, b) => 1 + Max(Height(a), Height(b))
  }

  function Max(a: nat, b: nat): nat { if a < b then b else a }

  lemma {:induction false} EndsWithinHeight(t: Tree, l: seq<bool>, i: nat, r: seq<bool>, j: nat)
    ensures LeftEnd(t, l, i, r, j) <= i + Height(t) && RightEnd(t, l, i, r, j) <= j + Height(t)
  {
    match t
    case Leaf(_) =>
    case Left(a, b) => EndsWithinHeight(if At(l, i) then b else a, l, i + 1, r, j);
    case Right(a, b) => EndsWithinHeight(if At(r, j) then b else a, l, i, r, j + 1);
  }

  /** The first `n` bits as a number. */
  function Number(s: seq<bool>, n: nat): nat {
    if n == 0 then 0 else 2 * Number(s, n - 1) + if At(s, n - 1) then 1 else 0
  }

  function Pow2(n: nat): nat {
    if n == 0 then 1 else 2 * Pow2(n - 1)
  }

  lemma {:induction false} NumberBound(s: seq<bool>, n: nat)
    ensures Number(s, n) < Pow2(n)
  {
    if n > 0 { NumberBound(s, n - 1); }
  }

  lemma {:induction false} NumberAgrees(a: seq<bool>, b: seq<bool>, n: nat)
    requires Agree(a, b, n)
    ensures Number(a, n) == Number(b, n)
  {
    if n > 0 { NumberAgrees(a, b, n - 1); }
  }

  /** A string that is less within the first `n` bits has the smaller number. */
  lemma {:induction false} NumberGrows(a: seq<bool>, b: seq<bool>, k: nat, n: nat)
    requires LessAt(a, b, k) && k < n
    ensures Number(a, n) < Number(b, n)
  {
    if k == n - 1 {
      NumberAgrees(a, b, k);
    } else {
      NumberGrows(a, b, k, n - 1);
    }
  }

  lemma NextIsGreater(s: seq<bool>, m: nat, n: nat)
    requires 0 < m <= n && !At(s, m - 1)
    ensures Number(s, n) < Number(Bumped(s, m), n)
  {
    forall k: nat | k < m ensures At(Bumped(s, m), k) == if k < m - 1 then At(s, k) else true { BumpedAt(s, m, k); }
    NumberGrows(s, Bumped(s, m), m - 1, n);
  }

  // --- strings that read the same ---------------------------------------------------------------------------

  ghost predicate Same(a: seq<bool>, b: seq<bool>) {
    forall k: nat :: At(a, k) == At(b, k)
  }

  lemma SameReads(t: Tree, l: seq<bool>, l': seq<bool>, i: nat, r: seq<bool>, r': seq<bool>, j: nat)
    requires Same(l, l') && Same(r, r')
    ensures Leads(t, l', i, r', j) == Leads(t, l, i, r, j)
    ensures LeftEnd(t, l', i, r', j) == LeftEnd(t, l, i, r, j) && RightEnd(t, l', i, r', j) == RightEnd(t, l, i, r, j)
  {
    OnlyReadBits(t, l, l', i, r, r', j);
  }

  lemma {:induction false} LastZeroSame(s: seq<bool>, s': seq<bool>, from: nat, end: nat, was: nat)
    requires Same(s, s')
    ensures LastZero(s, from, end, was) == LastZero(s', from, end, was)
    decreases end
  {
    if from < end { LastZeroSame(s, s', from, end - 1, was); }
  }

  // --- what the machine decides -------------------------------------------------------------------------------

  /** Under the left string `l` some right string reaches a true leaf. */
  ghost predicate Exists(t: Tree, l: seq<bool>) {
    exists r :: Leads(t, l, 0, r, 0)
  }

  ghost predicate ForallExists(t: Tree) {
    forall l :: Exists(t, l)
  }

  /** After a failed traversal, and the strings below having failed, all below the next have failed. */
  lemma FailedBelowNext(t: Tree, l: seq<bool>, r: seq<bool>, m: nat, x: seq<bool>)
    requires !Leads(t, l, 0, r, 0) && m == LastZero(r, 0, RightEnd(t, l, 0, r, 0), 0)
    requires forall y :: Less(y, r) ==> !Leads(t, l, 0, y, 0)
    requires 0 < m ==> Less(x, Bumped(r, m))
    ensures !Leads(t, l, 0, x, 0)
  {
    var d := RightEnd(t, l, 0, r, 0);
    LastZeroIs(r, 0, d, 0);
    NextMissesNone(r, d, m, x);
    if Agree(r, x, d) {
      OnlyReadBits(t, l, l, 0, r, x, 0);
    }
  }

  /** The same for the outer loop: what has been shown of a left string holds of all that agree with the bits read. */
  lemma MatchedBelowNext(t: Tree, l: seq<bool>, r: seq<bool>, m: nat, x: seq<bool>)
    requires Leads(t, l, 0, r, 0) && m == LastZero(l, 0, LeftEnd(t, l, 0, r, 0), 0)
    requires forall y :: Less(y, l) ==> Exists(t, y)
    requires 0 < m ==> Less(x, Bumped(l, m))
    ensures Exists(t, x)
  {
    var d := LeftEnd(t, l, 0, r, 0);
    LastZeroIs(l, 0, d, 0);
    NextMissesNone(l, d, m, x);
    if Agree(l, x, d) {
      OnlyReadBits(t, l, x, 0, r, r, 0);
    }
  }
}
