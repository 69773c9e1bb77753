/** Arrays that grow at the end over a zeroed buffer. */
module Arrays {
  const MAX_U32: nat := 0xFFFF_FFFF

  /** The next capacity: four, then half as much again below 48, then a fifth more. */
  function NextCapacity(c: nat): nat {
    if c < 4 then 4 else if c < 48 then c * 3 / 2 else c * 6 / 5
  }

  /** `k` is what a capacity of `c` grows to: four from less, the whole part of three halves below 48, of six fifths from there. */
  predicate GrowsTo(c: nat, k: nat) {
    if c < 4 then k == 4 else if c < 48 then 2 * k <= 3 * c < 2 * k + 2 else 5 * k <= 6 * c < 5 * k + 5
  }

  lemma GrowthIs(c: nat, k: nat)
    ensures GrowsTo(c, k) <==> k == NextCapacity(c)
  {
  }

  /** Copying a full buffer is paid for by the growth: six times the capacity covers all copies so far and this one. */
  lemma GrowthPays(c: nat, copied: nat)
    requires copied <= 6 * c
    ensures copied + c <= 6 * NextCapacity(c) && c < NextCapacity(c)
  {
  }

  /** Growth never overshoots by more than half. */
  lemma GrowthBound(c: nat)
    ensures 2 * NextCapacity(c) <= 8 + 3 * c
  {
  }

  function Max(a: nat, b: nat): nat { if a < b then b else a }
  function MinOf(a: nat, b: nat): nat { if a < b then a else b }
  function Zeros(n: nat): seq<nat> { seq(n, _ => 0) }

  /** A cell is zero when unset. */
  class GrowArray {
    var mem: array<nat>
    var length: nat
    /** Cells copied by all growths, and the greatest length the array has had. */
    ghost var copied: nat
    ghost var peak: nat

    ghost predicate Valid()
      reads this, mem
    {
      && length <= mem.Length <= MAX_U32 && (forall i :: length <= i < mem.Length ==> mem[i] == 0)
      && copied <= 6 * mem.Length && length <= peak && 2 * mem.Length <= 8 + 3 * peak
    }

    ghost function Contents(): seq<nat>
      requires Valid()
      reads this, mem
    {
      mem[..length]
    }

    constructor (n: nat)
      requires n <= MAX_U32
      ensures Valid() && fresh(mem) && Contents() == Zeros(n) && copied == 0 && peak == n
    {
      mem := new nat[n](_ => 0);
      length, copied, peak := n, 0, n;
    }

    method Get(i: nat) returns (ok: bool, v: nat)
      requires Valid()
      ensures ok == (i < |Contents()|) && (ok ==> v == Contents()[i])
    {
      if i >= length {
        return false, 0;
      }
      return true, mem[i];
    }

    method Put(i: nat, v: nat) returns (ok: bool)
      requires Valid()
      modifies mem
      ensures Valid() && ok == (i < |old(Contents())|)
      ensures Contents() == if ok then old(Contents())[i := v] else old(Contents())
    {
      if i >= length {
        return false;
      }
      mem[i] := v;
      return true;
    }

    /** A fresh zeroed buffer with the live prefix copied over. */
    method Reallocate(capacity: nat)
      requires Valid() && length <= capacity <= MAX_U32 && copied + length <= 6 * capacity && 2 * capacity <= 8 + 3 * peak
      modifies this`mem, this`copied
      ensures Valid() && fresh(mem) && mem.Length == capacity && Contents() == old(Contents()) && copied == old(copied) + length
    {
      var fresh_ := new nat[capacity](_ => 0);
      for i := 0 to length
        modifies fresh_
        invariant forall k :: 0 <= k < i ==> fresh_[k] == mem[k]
        invariant forall k :: i <= k < capacity ==> fresh_[k] == 0
      {
        fresh_[i] := mem[i];
      }
      mem := fresh_;
      copied := copied + length;
    }

    /** Lengthen by `inc` zero cells; fails, changing nothing, if the size does not fit or a buffer of it is refused. */
    method GrowEnd(inc: nat, limit: nat) returns (ok: bool)
      requires Valid()
      modifies this, mem
      ensures Valid() && (mem == old(mem) || fresh(mem))
      ensures ok <==> var n, c := old(length) + inc, old(mem.Length); n <= MAX_U32 && (c < n ==> Max(NextCapacity(c), n) <= MinOf(MAX_U32, limit))
      ensures ok ==> Contents() == old(Contents()) + Zeros(inc) && length == old(length) + inc && peak == Max(old(peak), length)
      ensures ok && length <= old(mem.Length) ==> mem == old(mem)
      ensures ok && old(mem.Length) < length ==> exists k :: GrowsTo(old(mem.Length), k) && mem.Length == Max(k, length)
      ensures !ok ==> Contents() == old(Contents()) && mem == old(mem) && length == old(length) && peak == old(peak)
    {
      hide NextCapacity, GrowsTo;
      var n := length + inc;
      if n > MAX_U32 {
        return false;
      }
      ghost var was := Contents();
      if n > mem.Length {
        GrowthPays(mem.Length, copied);
        GrowthBound(mem.Length);
        var capacity := NextCapacity(mem.Length);
        GrowthIs(mem.Length, capacity);
        if capacity < n {
          capacity := n;
        }
        if capacity > MAX_U32 || capacity > limit {
          return false;
        }
        peak := Max(peak, n);
        Reallocate(capacity);
      }
      length := n;
      peak := Max(peak, n);
      assert mem[..n] == was + Zeros(inc);
      return true;
    }

    /** Drop the last `dec` cells and zero them. */
    method DelEnd(dec: nat) returns (ok: bool)
      requires Valid()
      modifies this`length, mem
      ensures Valid() && ok == (dec <= |old(Contents())|)
      ensures Contents() == if ok then old(Contents())[..old(length) - dec] else old(Contents())
    {
      if length < dec {
        return false;
      }
      length := length - dec;
      ghost var was := mem[..length];
      for i := length to length + dec
        modifies mem
        invariant forall k :: length <= k < i ==> mem[k] == 0
        invariant forall k :: length + dec <= k < mem.Length ==> mem[k] == 0
        invariant mem[..length] == was
      {
        mem[i] := 0;
      }
      return true;
    }

    /** Append one element. */
    method Push(v: nat, limit: nat) returns (ok: bool)
      requires Valid()
      modifies this, mem
      ensures Valid() && (mem == old(mem) || fresh(mem))
      ensures ok <==> var n, c := old(length) + 1, old(mem.Length); n <= MAX_U32 && (c < n ==> Max(NextCapacity(c), n) <= MinOf(MAX_U32, limit))
      ensures Contents() == if ok then old(Contents()) + [v] else old(Contents())
      ensures peak == if ok then Max(old(peak), length) else old(peak)
      ensures !ok ==> mem == old(mem)
    {
      ok := GrowEnd(1, limit);
      if ok {
        var _ := Put(length - 1, v);
        assert Zeros(1) == [0];
      }
    }

    /** All copying so far is linear in the greatest length the array has had. */
    lemma CopiesAreLinear()
      requires Valid()
      ensures copied <= 6 * mem.Length <= 24 + 9 * peak
    {
    }
  }

  /** Pushing the elements of a sequence onto an empty array, until one is refused: the array holds what was
      pushed, and at most nine cells a push and a constant were copied. */
  method PushAll(vs: seq<nat>, limit: nat) returns (a: GrowArray, n: nat)
    ensures n <= |vs| && a.Valid() && a.Contents() == vs[..n] && a.copied <= 24 + 9 * n
    ensures n < |vs| ==> MAX_U32 <= n || (a.mem.Length == n && MinOf(MAX_U32, limit) < Max(NextCapacity(n), n + 1))
  {
    hide NextCapacity;
    a := new GrowArray(0);
    n := 0;
    while n < |vs|
      invariant n <= |vs| && a.Valid() && fresh(a) && fresh(a.mem) && a.Contents() == vs[..n] && a.peak == n
    {
      var ok := a.Push(vs[n], limit);
      if !ok {
        a.CopiesAreLinear();
        return;
      }
      n := n + 1;
    }
    a.CopiesAreLinear();
  }
}
