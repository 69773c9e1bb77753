/** Lowering structured source to flat code with absolute jumps. */
module Lowerings {
  import opened Wrappers
  import opened Sources
  import opened Interps

  /** Variables and their slots, numbered in order of first use. */
  type Names = map<string, nat>

  datatype LoweredExpr = LoweredExpr(code: seq<Instr>, names: Names, op: Op)
  datatype Lowered = Lowered(code: seq<Instr>, names: Names, last: Option<Op>)

  function SlotOf(names: Names, x: string): nat {
    if x in names then names[x] else |names|
  }

  function WithSlot(names: Names, x: string): Names {
    names[x := SlotOf(names, x)]
  }

  /** The builtin of an operator, and whether its operands swap. */
  function BuiltinOf(op: BinOp): (Builtin, bool) {
    match op
    case Add => (BAdd, false)
    case Sub => (BSub, false)
    case Mul => (BMul, false)
    case Div => (BDiv, false)
    case IDiv => (BIDiv, false)
    case Rem => (BRem, false)
    case And => (BAnd, false)
    case Or => (BOr, false)
    case Xor => (BXor, false)
    case Shl => (BShl, false)
    case Shr => (BShr, false)
    case Ushr => (BLshr, false)
    case Lt => (BSlt, false)
    case Le => (BSle, false)
    case Gt => (BSlt, true)
    case Ge => (BSle, true)
    case Eq => (BEq, false)
    case Egal => (BEgal, false)
  }

  function CallOf(op: BinOp, x: Op, y: Op): Instr {
    var (b, swap) := BuiltinOf(op);
    if swap then Call(b, y, x) else Call(b, x, y)
  }

  /** The code of an expression that will stand at `at`. */
  function LowerExpr(e: Expr, at: nat, names: Names): LoweredExpr {
    match e
    case Lit(v) => LoweredExpr([], names, Const(v))
    case Var(x) => LoweredExpr([], WithSlot(names, x), Slot(SlotOf(names, x)))
    case Bin(op, l, r) =>
      var a := LowerExpr(l, at, names);
      var b := LowerExpr(r, at + |a.code|, a.names);
      LoweredExpr(a.code + b.code + [CallOf(op, a.op, b.op)], b.names, Ssa(at + |a.code| + |b.code|))
    case Throw(x) =>
      var a := LowerExpr(x, at, names);
      LoweredExpr(a.code + [Raise(a.op)], a.names, Ssa(at + |a.code|))
  }

  function LowerIf(c: LoweredExpr, at: nat, t: Lowered, f: Lowered): seq<Instr> {
    var elseStart := at + |c.code| + 1 + |t.code| + 1;
    c.code + [GotoIfNot(c.op, elseStart)] + t.code + [Goto(elseStart + |f.code|)] + f.code
  }

  function LowerWhile(c: LoweredExpr, at: nat, body: Lowered): seq<Instr> {
    c.code + [GotoIfNot(c.op, at + |c.code| + 1 + |body.code| + 1)] + body.code + [Goto(at)]
  }

  /** Binding the caught exception at the start of a handler. */
  function LowerBind(x: Option<string>, at: nat, names: Names): Lowered {
    if x.Some? then Lowered([Caught, Store(SlotOf(names, x.value), Ssa(at))], WithSlot(names, x.value), None)
    else Lowered([], names, None)
  }

  function LowerTry(at: nat, body: Lowered, bind: Lowered, handler: Lowered): seq<Instr> {
    var catchStart := at + 1 + |body.code| + 2;
    var end := catchStart + |bind.code| + |handler.code| + 1;
    [Enter(catchStart)] + body.code + [Leave(1), Goto(end)] + bind.code + handler.code + [PopException(Ssa(at))]
  }

  /** The cleanup stands twice: after normal completion, and in the handler that then rethrows. */
  function LowerFinally(at: nat, body: Lowered, normal: Lowered, raised: Lowered): seq<Instr> {
    var catchStart := at + 1 + |body.code| + 1 + |normal.code| + 1;
    var end := catchStart + |raised.code| + 1;
    [Enter(catchStart)] + body.code + [Leave(1)] + normal.code + [Goto(end)] + raised.code + [Rethrow]
  }

  function LowerStmt(s: Stmt, at: nat, names: Names): Lowered {
    match s
    case Assign(x, e) =>
      var a := LowerExpr(e, at, names);
      Lowered(a.code + [Store(SlotOf(a.names, x), a.op)], WithSlot(a.names, x), Some(Slot(SlotOf(a.names, x))))
    case Do(e) =>
      var a := LowerExpr(e, at, names);
      Lowered(a.code, a.names, Some(a.op))
    case If(c, t, f) =>
      var a := LowerExpr(c, at, names);
      var x := LowerBlock(t, at + |a.code| + 1, a.names, None);
      var y := LowerBlock(f, at + |a.code| + 1 + |x.code| + 1, x.names, None);
      Lowered(LowerIf(a, at, x, y), y.names, None)
    case While(c, body) =>
      var a := LowerExpr(c, at, names);
      var x := LowerBlock(body, at + |a.code| + 1, a.names, None);
      Lowered(LowerWhile(a, at, x), x.names, None)
    case Try(body, v, handler) =>
      var x := LowerBlock(body, at + 1, names, None);
      var catchStart := at + 1 + |x.code| + 2;
      var b := LowerBind(v, catchStart, x.names);
      var y := LowerBlock(handler, catchStart + |b.code|, b.names, None);
      Lowered(LowerTry(at, x, b, y), y.names, None)
    case Finally(body, cleanup) =>
      var x := LowerBlock(body, at + 1, names, None);
      var y := LowerBlock(cleanup, at + 1 + |x.code| + 1, x.names, None);
      var z := LowerBlock(cleanup, at + 1 + |x.code| + 1 + |y.code| + 1, y.names, None);
      Lowered(LowerFinally(at, x, y, z), z.names, None)
  }

  function LowerBlock(b: Block, at: nat, names: Names, last: Option<Op>): Lowered {
    match b
    case End => Lowered([], names, last)
    case Then(s, rest) =>
      var x := LowerStmt(s, at, names);
      var y := LowerBlock(rest, at + |x.code|, x.names, x.last);
      Lowered(x.code + y.code, y.names, y.last)
  }

  function ReturnOf(last: Option<Op>): Op {
    if last.Some? then last.value else Const(Int(0))
  }

  function LowerProgram(b: Block): Lowered {
    var x := LowerBlock(b, 0, map[], None);
    Lowered(x.code + [Return(ReturnOf(x.last))], x.names, x.last)
  }

  // --- slots ---------------------------------------------------------------------------------------

  predicate Extends(a: Names, b: Names) {
    forall x :: x in a ==> x in b && b[x] == a[x]
  }

  /** Slots are in range and no two variables share one. */
  predicate NamesOk(names: Names) {
    && (forall x :: x in names ==> names[x] < |names|)
    && (forall x, y :: x in names && y in names && names[x] == names[y] ==> x == y)
  }

  /** Good slots stay good and none is renumbered. */
  predicate Grows(a: Names, b: Names) {
    Extends(a, b) && (NamesOk(a) ==> NamesOk(b))
  }

  lemma GrowsTwice(a: Names, b: Names, c: Names)
    requires Grows(a, b) && Grows(b, c)
    ensures Grows(a, c)
  {
    hide NamesOk;
  }

  lemma WithSlotGrows(names: Names, x: string)
    ensures Grows(names, WithSlot(names, x))
  {
    if x in names {
      assert WithSlot(names, x) == names;
    }
  }

  lemma {:induction false} ExprNames(e: Expr, at: nat, names: Names)
    ensures Grows(names, LowerExpr(e, at, names).names)
  {
    match e
    case Lit(v) =>
    case Var(x) => WithSlotGrows(names, x);
    case Bin(op, l, r) =>
      var a := LowerExpr(l, at, names);
      ExprNames(l, at, names);
      ExprNames(r, at + |a.code|, a.names);
      GrowsTwice(names, a.names, LowerExpr(r, at + |a.code|, a.names).names);
    case Throw(x) => ExprNames(x, at, names);
  }

  lemma BindNames(x: Option<string>, at: nat, names: Names)
    ensures Grows(names, LowerBind(x, at, names).names)
  {
    if x.Some? { WithSlotGrows(names, x.value); }
  }

  lemma {:induction false} StmtNames(s: Stmt, at: nat, names: Names)
    ensures Grows(names, LowerStmt(s, at, names).names)
    decreases s
  {
    hide Grows, LowerExpr, LowerBind, LowerBlock, LowerIf, LowerWhile, LowerTry, LowerFinally, WithSlot;
    match s
    case Assign(x, e) =>
      ExprNames(e, at, names);
      WithSlotGrows(LowerExpr(e, at, names).names, x);
      GrowsTwice(names, LowerExpr(e, at, names).names, LowerStmt(s, at, names).names);
    case Do(e) => ExprNames(e, at, names);
    case If(c, t, f) =>
      var a := LowerExpr(c, at, names);
      var x := LowerBlock(t, at + |a.code| + 1, a.names, None);
      ExprNames(c, at, names);
      BlockNames(t, at + |a.code| + 1, a.names, None);
      BlockNames(f, at + |a.code| + 1 + |x.code| + 1, x.names, None);
      GrowsTwice(names, a.names, x.names);
      GrowsTwice(names, x.names, LowerStmt(s, at, names).names);
    case While(c, body) =>
      var a := LowerExpr(c, at, names);
      ExprNames(c, at, names);
      BlockNames(body, at + |a.code| + 1, a.names, None);
      GrowsTwice(names, a.names, LowerStmt(s, at, names).names);
    case Try(body, v, handler) =>
      var x := LowerBlock(body, at + 1, names, None);
      var catchStart := at + 1 + |x.code| + 2;
      var b := LowerBind(v, catchStart, x.names);
      BlockNames(body, at + 1, names, None);
      BindNames(v, catchStart, x.names);
      BlockNames(handler, catchStart + |b.code|, b.names, None);
      GrowsTwice(names, x.names, b.names);
      GrowsTwice(names, b.names, LowerStmt(s, at, names).names);
    case Finally(body, cleanup) =>
      var x := LowerBlock(body, at + 1, names, None);
      var y := LowerBlock(cleanup, at + 1 + |x.code| + 1, x.names, None);
      BlockNames(body, at + 1, names, None);
      BlockNames(cleanup, at + 1 + |x.code| + 1, x.names, None);
      BlockNames(cleanup, at + 1 + |x.code| + 1 + |y.code| + 1, y.names, None);
      GrowsTwice(names, x.names, y.names);
      GrowsTwice(names, y.names, LowerStmt(s, at, names).names);
  }

  lemma {:induction false} BlockNames(b: Block, at: nat, names: Names, last: Option<Op>)
    ensures Grows(names, LowerBlock(b, at, names, last).names)
    decreases b
  {
    hide LowerStmt, NamesOk, Extends;
    match b
    case End => SameGrows(names);
    case Then(s, rest) =>
      var x := LowerStmt(s, at, names);
      StmtNames(s, at, names);
      BlockNames(rest, at + |x.code|, x.names, x.last);
      GrowsTwice(names, x.names, LowerBlock(rest, at + |x.code|, x.names, x.last).names);
  }

  lemma SameGrows(names: Names)
    ensures Grows(names, names)
  {
  }
}
