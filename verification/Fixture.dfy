/** Typed IR of one compiled method, and its meaning block by block. */
module Fixtures {
  import opened Wrappers

  datatype Ty = Int64 | Bool | Ref | Unsupported

  datatype Intrinsic =
    | AddInt | SubInt | MulInt | AndInt | OrInt | XorInt
    | SleInt | SltInt | UleInt | UltInt | EqInt | NeInt

  predicate IsComparison(f: Intrinsic) {
    f in {SleInt, SltInt, UleInt, UltInt, EqInt, NeInt}
  }

  /** Statement ids are 1-based; argument 1 is the function itself. */
  datatype Operand = Ssa(id: nat) | Arg(n: nat) | ConstInt(v: int) | ConstBool(b: bool) | BadConst | NoValue

  datatype Node =
    | Nothing
    | Phi(edges: seq<nat>, values: seq<Operand>)
    | Call(f: Option<Intrinsic>, args: seq<Operand>)
    | New(isRefType: bool, args: seq<Operand>)
    | GetField(obj: Operand, isX: bool)
    | GotoIfNot(cond: Operand, dest: nat)
    | Goto(dest: nat)
    | Return(val: Operand)

  datatype Stmt = Stmt(ty: Ty, node: Node)

  /** `first` and `last` bound the statements of the block, 1-based and inclusive. */
  datatype Block = Block(first: nat, last: nat)

  datatype Fixture = Fixture(nargs: nat, blocks: seq<Block>, stmts: seq<Stmt>)

  predicate Produces(n: Node) {
    n.Phi? || n.Call? || n.New? || n.GetField?
  }

  // --- values and the host --------------------------------------------------------------

  datatype Val = I64(i: int) | I32(n: nat)

  const WORD: nat := 0x1_0000_0000

  /** 32-bit wrap-around. */
  function Wrap(a: nat): nat { a % WORD }

  /** What compiled code gets from its surroundings, over a world `W`: the arithmetic, an allocator
      that sees the shadow stack (it may collect), field loads, the address of the shadow-top cell,
      the address of the slot arena and the base address of the region. */
  datatype Host<!W> = Host(
    apply: (Intrinsic, int, int) -> Val,
    alloc: (W, seq<nat>, int) -> (W, nat),
    load: (W, nat) -> int,
    topCell: nat,
    arena: nat,
    regionBase: nat)

  ghost predicate HostOk<W(!new)>(h: Host<W>) {
    && (forall f, a, b :: h.apply(f, a, b).I32? <==> IsComparison(f))
    && h.topCell + 4 <= h.arena
  }

  // --- typing -----------------------------------------------------------------------------

  predicate HasTy(v: Val, ty: Ty) {
    match ty
    case Int64 => v.I64?
    case Bool => v.I32?
    case Ref => v.I32?
    case Unsupported => true
  }

  function Zero(ty: Ty): (v: Val)
    ensures HasTy(v, ty)
  {
    if ty == Int64 then I64(0) else I32(0)
  }

  /** The type of a usable operand. */
  function OperandTy(fx: Fixture, op: Operand): Option<Ty> {
    match op
    case Ssa(id) =>
      if 1 <= id <= |fx.stmts| && Produces(fx.stmts[id - 1].node) then Some(fx.stmts[id - 1].ty) else None
    case Arg(n) => if 2 <= n < fx.nargs + 2 then Some(Int64) else None
    case ConstInt(_) => Some(Int64)
    case ConstBool(_) => Some(Bool)
    case _ => None
  }

  predicate StmtTyped(fx: Fixture, s: Stmt) {
    match s.node
    case Phi(edges, values) =>
      |edges| == |values| && forall k :: 0 <= k < |values| ==> OperandTy(fx, values[k]) == Some(s.ty)
    case Call(f, args) =>
      && f.Some? && |args| == 2 && (forall k :: 0 <= k < |args| ==> OperandTy(fx, args[k]) == Some(Int64))
      && s.ty == if IsComparison(f.value) then Bool else Int64
    case New(isRefType, args) =>
      isRefType && |args| == 1 && OperandTy(fx, args[0]) == Some(Int64) && s.ty == Ref
    case GetField(obj, isX) => isX && OperandTy(fx, obj) == Some(Ref) && s.ty == Int64
    case GotoIfNot(cond, dest) => OperandTy(fx, cond) == Some(Bool) && 1 <= dest
    case Goto(dest) => 1 <= dest
    case Return(val) => OperandTy(fx, val) == Some(Int64)
    case _ => true
  }

  /** Operands have the types their statements need, values have supported types, destinations count from 1,
      and blocks lie within the statement list. */
  ghost predicate Typed(fx: Fixture) {
    && (forall i :: 0 <= i < |fx.stmts| ==> StmtTyped(fx, fx.stmts[i]))
    && (forall i :: 0 <= i < |fx.stmts| && Produces(fx.stmts[i].node) ==> !fx.stmts[i].ty.Unsupported?)
    && (forall x :: 0 <= x < |fx.blocks| ==> 1 <= fx.blocks[x].first <= fx.blocks[x].last <= |fx.stmts|)
  }

  // --- SSA semantics -----------------------------------------------------------------------

  /** One value per statement (zero until computed), the arguments, and the world. */
  datatype State<W> = State(vals: seq<Val>, args: seq<Val>, world: W)

  ghost predicate StateOk<W>(fx: Fixture, s: State<W>) {
    && |s.vals| == |fx.stmts| && |s.args| == fx.nargs
    && (forall i :: 0 <= i < |s.vals| && Produces(fx.stmts[i].node) ==> HasTy(s.vals[i], fx.stmts[i].ty))
    && (forall a :: a in s.args ==> a.I64?)
  }

  function Eval<W>(s: State<W>, op: Operand): Val {
    match op
    case Ssa(id) => if 1 <= id <= |s.vals| then s.vals[id - 1] else I64(0)
    case Arg(n) => if 2 <= n < |s.args| + 2 then s.args[n - 2] else I64(0)
    case ConstInt(v) => I64(v)
    case ConstBool(b) => I32(if b then 1 else 0)
    case _ => I64(0)
  }

  lemma EvalTyped<W>(fx: Fixture, s: State<W>, op: Operand)
    requires StateOk(fx, s) && OperandTy(fx, op).Some?
    ensures HasTy(Eval(s, op), OperandTy(fx, op).value)
  {
    if op.Arg? {
      assert s.args[op.n - 2] in s.args;
    }
  }

  predicate IsRefStmt(s: Stmt) {
    Produces(s.node) && s.ty == Ref
  }

  function RefCount(stmts: seq<Stmt>): nat {
    if stmts == [] then 0
    else RefCount(stmts[..|stmts| - 1]) + if IsRefStmt(stmts[|stmts| - 1]) then 1 else 0
  }

  function Word(v: Val): nat { if v.I32? then v.n else 0 }

  /** A statement whose value is a reference, phis included. */
  predicate HoldsRef(s: Stmt) {
    s.ty == Ref &&
    match s.node
    case Phi(_, _) => true
    case Call(_, _) => true
    case New(_, _) => true
    case GetField(_, _) => true
    case _ => false
  }

  /** The reference values a method holds, one per reference-typed statement, in statement order. */
  function RefVals(stmts: seq<Stmt>, vals: seq<Val>): (r: seq<nat>)
    requires |stmts| == |vals|
    ensures |r| == RefCount(stmts)
  {
    if stmts == [] then []
    else
      RefVals(stmts[..|stmts| - 1], vals[..|vals| - 1]) +
      if HoldsRef(stmts[|stmts| - 1]) then [Word(vals[|vals| - 1])] else []
  }

  /** Every such value is among them. */
  lemma {:induction false} RefIsShown(stmts: seq<Stmt>, vals: seq<Val>, i: nat)
    requires |stmts| == |vals| && i < |stmts| && HoldsRef(stmts[i])
    ensures Word(vals[i]) in RefVals(stmts, vals)
    decreases |stmts|
  {
    if i < |stmts| - 1 { RefIsShown(stmts[..|stmts| - 1], vals[..|vals| - 1], i); }
  }

  /** Compute statement `i`.  An allocation shows the collector the outer frames' slots and every
      reference value of this frame. */
  function RunStmt<W>(h: Host<W>, outer: seq<nat>, fx: Fixture, s: State<W>, i: nat): State<W>
    requires |s.vals| == |fx.stmts| && i < |fx.stmts|
  {
    match fx.stmts[i].node
    case Call(f, args) =>
      if f.None? || |args| != 2 then s
      else
        var a, b := Eval(s, args[0]), Eval(s, args[1]);
        if a.I64? && b.I64? then s.(vals := s.vals[i := h.apply(f.value, a.i, b.i)]) else s
    case New(_, args) =>
      if |args| != 1 || !Eval(s, args[0]).I64? then s
      else
        var (w, r) := h.alloc(s.world, outer + RefVals(fx.stmts, s.vals), Eval(s, args[0]).i);
        s.(vals := s.vals[i := I32(r)], world := w)
    case GetField(obj, _) =>
      var o := Eval(s, obj);
      if o.I32? then s.(vals := s.vals[i := I64(h.load(s.world, Wrap(h.regionBase + o.n)))]) else s
    case _ => s
  }

  function RunStmts<W>(h: Host<W>, outer: seq<nat>, fx: Fixture, s: State<W>, lo: nat, hi: nat): (r: State<W>)
    requires |s.vals| == |fx.stmts| && lo <= hi <= |fx.stmts|
    ensures |r.vals| == |fx.stmts|
    decreases hi - lo
  {
    if lo == hi then s else RunStmt(h, outer, fx, RunStmts(h, outer, fx, s, lo, hi - 1), hi - 1)
  }

  function IndexOf(edges: seq<nat>, e: nat): (r: Option<nat>)
    ensures r.Some? ==> r.value < |edges| && edges[r.value] == e && e !in edges[..r.value]
    ensures r.None? ==> e !in edges
  {
    if edges == [] then None
    else if edges[0] == e then Some(0)
    else
      var r := IndexOf(edges[1..], e);
      if r.None? then None
      else
        assert edges[..r.value + 1] == [edges[0]] + edges[1..][..r.value];
        Some(r.value + 1)
  }

  /** The operand statement `i` takes on the edge from block `x` to block `t`, when it is a phi of `t`
      with a value for that edge. */
  function PhiOperand(fx: Fixture, x: nat, t: nat, i: nat): Option<Operand>
    requires i < |fx.stmts| && t < |fx.blocks|
  {
    var n := fx.stmts[i].node;
    if fx.blocks[t].first <= i + 1 <= fx.blocks[t].last && n.Phi? then
      var j := IndexOf(n.edges, x + 1);
      if j.Some? && j.value < |n.values| then Some(n.values[j.value]) else None
    else None
  }

  /** The phis of the target among the first `hi` statements take their values, all read from `s`. */
  function TakePhis<W>(fx: Fixture, s: State<W>, x: nat, t: nat, hi: nat): (r: State<W>)
    requires |s.vals| == |fx.stmts| && t < |fx.blocks|
    ensures |r.vals| == |s.vals|
  {
    s.(vals := seq(|s.vals|, i requires 0 <= i < |s.vals| =>
                    var op := PhiOperand(fx, x, t, i);
                    if i < hi && op.Some? then Eval(s, op.value) else s.vals[i]))
  }

  /** All phis of the target take their values at once. */
  function TakeEdge<W>(fx: Fixture, s: State<W>, x: nat, t: nat): (r: State<W>)
    requires |s.vals| == |fx.stmts| && t < |fx.blocks|
    ensures |r.vals| == |s.vals|
  {
    TakePhis(fx, s, x, t, |fx.stmts|)
  }

  function Condition<W>(fx: Fixture, s: State<W>, x: nat): bool
    requires x < |fx.blocks| && 1 <= fx.blocks[x].last <= |fx.stmts|
  {
    var n := fx.stmts[fx.blocks[x].last - 1].node;
    n.GotoIfNot? && Eval(s, n.cond) != I32(0)
  }

  function ResultOf<W>(fx: Fixture, s: State<W>, x: nat): Val
    requires x < |fx.blocks| && 1 <= fx.blocks[x].last <= |fx.stmts|
  {
    var n := fx.stmts[fx.blocks[x].last - 1].node;
    if n.Return? then Eval(s, n.val) else I64(0)
  }
}
