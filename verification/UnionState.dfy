/** One stack of union decisions: a binary counter that grows as a traversal discovers decision points,
    kept bit by bit in 32-bit words. */
module UnionStates {
  // --- words -----------------------------------------------------------------------------------------

  function Index(i: nat): (b: bv32)
    ensures b < 32
  {
    IndexRound(i % 32);
    (i % 32) as bv32
  }

  lemma IndexRound(b: nat)
    requires b < 32
    ensures (b as bv32) as nat == b && (b as bv32) < 32
  {
  }

  lemma IndexInjective(i: nat, j: nat)
    requires Index(i) == Index(j)
    ensures i % 32 == j % 32
  {
    IndexRound(i % 32);
    IndexRound(j % 32);
  }

  function TestBit(w: bv32, b: bv32): bool
    requires b < 32
  {
    w & (1 << b) != 0
  }

  function SetBit(w: bv32, b: bv32, v: bool): bv32
    requires b < 32
  {
    if v then w | (1 << b) else w & !(1 << b)
  }

  lemma Masks(b: bv32, c: bv32)
    requires b < 32 && c < 32
    ensures ((1 as bv32) << b) & (1 << c) == if b == c then 1 << b else 0
    ensures (1 as bv32) << b != 0
  {
  }

  lemma OrMask(w: bv32, m: bv32, k: bv32)
    ensures (w | m) & k == (w & k) | (m & k)
  {
  }

  lemma AndMask(w: bv32, m: bv32, k: bv32)
    ensures (w & !m) & k == (w & k) & !(m & k)
  {
  }

  lemma SetOne(w: bv32, m: bv32, k: bv32)
    requires m != 0
    ensures (w | m) & m != 0 && (m & k == 0 ==> (w | m) & k == w & k)
  {
    OrMask(w, m, m);
    OrMask(w, m, k);
  }

  lemma SetZero(w: bv32, m: bv32, k: bv32)
    ensures (w & !m) & m == 0 && (m & k == 0 ==> (w & !m) & k == w & k)
  {
    AndMask(w, m, m);
    AndMask(w, m, k);
  }

  lemma SetThenTest(w: bv32, b: bv32, v: bool, c: bv32)
    requires b < 32 && c < 32
    ensures TestBit(SetBit(w, b, v), c) == if b == c then v else TestBit(w, c)
  {
    Masks(b, c);
    SetOne(w, 1 << b, 1 << c);
    SetZero(w, 1 << b, 1 << c);
  }

  lemma ZeroHasNoBits(c: bv32)
    requires c < 32
    ensures !TestBit(0, c)
  {
  }

  // --- the store ------------------------------------------------------------------------------------------

  function GetBit(words: seq<bv32>, i: nat): bool {
    i / 32 < |words| && TestBit(words[i / 32], Index(i))
  }

  /** The store grows on demand. */
  function Grown(words: seq<bv32>, n: nat): seq<bv32> {
    if n <= |words| then words else words + seq(n - |words|, _ => 0)
  }

  function PutBit(words: seq<bv32>, i: nat, v: bool): seq<bv32> {
    var w := Grown(words, i / 32 + 1);
    w[i / 32 := SetBit(w[i / 32], Index(i), v)]
  }

  /** Growing the store changes no bit. */
  lemma GetGrown(words: seq<bv32>, n: nat, j: nat)
    ensures GetBit(Grown(words, n), j) == GetBit(words, j)
  {
    hide TestBit, Index;
    ZeroHasNoBits(Index(j));
  }

  /** Setting a bit changes that bit and no other. */
  lemma GetPut(words: seq<bv32>, i: nat, v: bool, j: nat)
    ensures GetBit(PutBit(words, i, v), j) == if j == i then v else GetBit(words, j)
  {
    hide TestBit, SetBit, Index, Grown;
    var w := Grown(words, i / 32 + 1);
    GetGrown(words, i / 32 + 1, j);
    GrownSize(words, i / 32 + 1);
    SetThenTest(w[i / 32], Index(i), v, Index(j));
    if j != i && j / 32 == i / 32 && Index(i) == Index(j) {
      IndexInjective(i, j);
    }
  }

  lemma GrownSize(words: seq<bv32>, n: nat)
    ensures n <= |Grown(words, n)|
  {
  }

  function FirstBits(words: seq<bv32>, n: nat): (b: seq<bool>)
    ensures |b| == n && forall i :: 0 <= i < n ==> b[i] == GetBit(words, i)
  {
    seq(n, i requires 0 <= i < n => GetBit(words, i))
  }

  // --- the counter --------------------------------------------------------------------------------------------

  class UnionState {
    var depth: nat
    var more: nat
    var used: nat
    var words: seq<bv32>

    /** The meaningful bits. */
    ghost function Bits(): (b: seq<bool>)
      reads this
      ensures |b| == used && forall i :: 0 <= i < used ==> b[i] == GetBit(words, i)
    {
      FirstBits(words, used)
    }

    constructor ()
      ensures depth == 0 && more == 0 && used == 0 && Bits() == []
    {
      depth, more, used, words := 0, 0, 0, [];
    }

    method Get(i: nat) returns (b: bool)
      ensures b == GetBit(words, i)
    {
      b := i / 32 < |words| && TestBit(words[i / 32], Index(i));
    }

    method Set(i: nat, v: bool)
      modifies this`words
      ensures words == PutBit(old(words), i, v)
    {
      var w := i / 32;
      if w >= |words| {
        words := words + seq(w + 1 - |words|, _ => 0);
      }
      words := words[w := SetBit(words[w], Index(i), v)];
    }

    /** Read the decision at the cursor, or discover it as 0; a 0 is the deepest choice left open. */
    method PickDecision() returns (b: bool)
      requires depth <= used
      modifies this
      ensures depth == old(depth) + 1 && depth <= used
      ensures Bits() == if old(depth) < old(used) then old(Bits()) else old(Bits()) + [false]
      ensures b == Bits()[old(depth)] && more == if b then old(more) else depth
    {
      hide GetBit, PutBit;
      ghost var before := words;
      if depth >= used {
        var i := used;
        Set(i, false);
        used := used + 1;
        forall j: nat ensures GetBit(words, j) == if j == i then false else GetBit(before, j) {
          GetPut(before, i, false, j);
        }
      }
      b := Get(depth);
      depth := depth + 1;
      if !b {
        more := depth;
      }
    }

    /** Count up: drop what lies beyond the deepest open choice and turn that choice; false when there is none. */
    method Next() returns (ok: bool)
      requires more <= used
      modifies this`used, this`words
      ensures ok == (more > 0)
      ensures ok ==> Bits() == old(Bits())[..more - 1] + [true]
      ensures !ok ==> Bits() == old(Bits())
    {
      hide GetBit, PutBit;
      if more == 0 {
        return false;
      }
      ghost var before := words;
      used := more;
      var i := used - 1;
      Set(i, true);
      forall j: nat ensures GetBit(words, j) == if j == i then true else GetBit(before, j) {
        GetPut(before, i, true, j);
      }
      return true;
    }
  }
}
