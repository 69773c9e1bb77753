/** The emitter as the pass runs it: tables filled by one loop over the statements, instructions
    appended in place, the first failure remembered. */
module Emitters {
  import opened Wrappers
  import opened Fixtures
  import opened Wasm
  import opened Emit
  import opened Compile
  import R = Relooper

  /** Assign a local to every value-producing statement and a slot to every reference-typed one;
      fails on a value of unsupported type. */
  method BuildTables(fx: Fixture) returns (ok: bool, ssaLocal: seq<Option<nat>>, refSlot: seq<Option<nat>>, hasGetField: bool)
    ensures ok <==> forall i :: 0 <= i < |fx.stmts| && Produces(fx.stmts[i].node) ==> !fx.stmts[i].ty.Unsupported?
    ensures ok ==> |ssaLocal| == |refSlot| == |fx.stmts|
    ensures ok ==> forall i :: 0 <= i < |fx.stmts| ==> ssaLocal[i] == LocalOf(fx, i) && refSlot[i] == SlotOf(fx, i)
    ensures ok ==> hasGetField == HasGetField(fx)
  {
    var nlocals, nrefs := 0, 0;
    ok, ssaLocal, refSlot, hasGetField := true, [], [], false;
    for n := 0 to |fx.stmts|
      invariant |ssaLocal| == |refSlot| == n
      invariant nlocals == ProdCount(fx.stmts[..n]) && nrefs == RefCount(fx.stmts[..n])
      invariant hasGetField <==> exists i :: 0 <= i < n && fx.stmts[i].node.GetField?
      invariant ok && forall i :: 0 <= i < n && Produces(fx.stmts[i].node) ==> !fx.stmts[i].ty.Unsupported?
      invariant forall i :: 0 <= i < n ==> ssaLocal[i] == LocalOf(fx, i) && refSlot[i] == SlotOf(fx, i)
    {
      var s := fx.stmts[n];
      assert fx.stmts[..n + 1][..n] == fx.stmts[..n];
      if s.node.GetField? { hasGetField := true; }
      if Produces(s.node) {
        if s.ty.Unsupported? { ok := false; return; }
        ssaLocal := ssaLocal + [Some(fx.nargs + nlocals)];
        nlocals := nlocals + 1;
        if s.ty == Ref {
          refSlot := refSlot + [Some(nrefs)];
          nrefs := nrefs + 1;
        } else {
          refSlot := refSlot + [None];
        }
      } else {
        ssaLocal, refSlot := ssaLocal + [None], refSlot + [None];
      }
    }
    assert fx.stmts[..|fx.stmts|] == fx.stmts;
  }

  lemma {:induction false} MovesBefore(fx: Fixture, x: nat, t: nat, lo: nat)
    requires t < |fx.blocks| && lo <= |fx.stmts| && lo < fx.blocks[t].first
    ensures MovesCode(fx, x, t, lo) == Some([])
  {
    if lo > 0 {
      MovesBefore(fx, x, t, lo - 1);
      var none: seq<Insn> := [];
      assert none + none == none;
    }
  }

  lemma {:induction false} MovesAfter(fx: Fixture, x: nat, t: nat, hi: nat)
    requires t < |fx.blocks| && fx.blocks[t].last <= hi <= |fx.stmts|
    ensures MovesCode(fx, x, t, hi) == MovesCode(fx, x, t, fx.blocks[t].last)
  {
    if hi > fx.blocks[t].last {
      MovesAfter(fx, x, t, hi - 1);
      var c := MovesCode(fx, x, t, hi - 1);
      if c.Some? { assert c.value + [] == c.value; }
    }
  }

  class FnEmitter {
    const fx: Fixture
    const ssaLocal: seq<Option<nat>>
    const refSlot: seq<Option<nat>>
    var insns: seq<Insn>
    var ok: bool

    ghost predicate Valid() {
      && |ssaLocal| == |refSlot| == |fx.stmts| && BlocksInside(fx)
      && forall i :: 0 <= i < |fx.stmts| ==> ssaLocal[i] == LocalOf(fx, i) && refSlot[i] == SlotOf(fx, i)
    }

    /** `code` has been appended, or a failure recorded. */
    twostate predicate Appended(new code: Option<seq<Insn>>)
      reads this
    {
      if old(ok) && code.Some? then ok && insns == old(insns) + code.value else !ok
    }

    constructor (fx: Fixture, ssaLocal: seq<Option<nat>>, refSlot: seq<Option<nat>>, prologue: seq<Insn>)
      ensures this.fx == fx && this.ssaLocal == ssaLocal && this.refSlot == refSlot && insns == prologue && ok
    {
      this.fx, this.ssaLocal, this.refSlot, insns, ok := fx, ssaLocal, refSlot, prologue, true;
    }

    method Operand(op: Operand)
      requires Valid() && (op.Ssa? ==> 1 <= op.id <= |fx.stmts|)
      modifies this`insns, this`ok
      ensures Appended(var c := OperandCode(fx, op); if c.Some? then Some([c.value]) else None)
    {
      match op
      case Ssa(id) =>
        match ssaLocal[id - 1] {
          case Some(l) => insns := insns + [LocalGet(l)];
          case None => ok := false;
        }
      case Arg(n) =>
        if n < 2 { ok := false; } else { insns := insns + [LocalGet(n - 2)]; }
      case ConstInt(v) => insns := insns + [I64Const(v)];
      case ConstBool(b) => insns := insns + [I32Const(if b then 1 else 0)];
      case _ => ok := false;
    }

    method StoreSsa(i: nat)
      requires Valid() && i < |fx.stmts|
      modifies this`insns, this`ok
      ensures Appended(SetSsa(fx, i))
    {
      match ssaLocal[i]
      case None => ok := false;
      case Some(l) =>
        insns := insns + [LocalSet(l)];
        match refSlot[i] {
          case Some(k) => insns := insns + [LocalGet(BaseLocal(fx)), LocalGet(l), I32Store(4 * k)];
          case None =>
        }
    }

    method Operands(ops: seq<Operand>)
      requires Valid() && forall k :: 0 <= k < |ops| && ops[k].Ssa? ==> 1 <= ops[k].id <= |fx.stmts|
      modifies this`insns, this`ok
      ensures Appended(OperandsCode(fx, ops))
    {
      ghost var start, okay := insns, ok;
      for k := 0 to |ops|
        invariant if okay && OperandsCode(fx, ops[..k]).Some? then ok && insns == start + OperandsCode(fx, ops[..k]).value else !ok
      {
        assert ops[..k + 1][..k] == ops[..k];
        Operand(ops[k]);
      }
      assert ops[..|ops|] == ops;
    }

    /** Every statement a node mentions exists. */
    ghost predicate IdsInRange(n: Node) {
      match n
      case Call(_, args) => forall k :: 0 <= k < |args| && args[k].Ssa? ==> 1 <= args[k].id <= |fx.stmts|
      case New(_, args) => forall k :: 0 <= k < |args| && args[k].Ssa? ==> 1 <= args[k].id <= |fx.stmts|
      case GetField(obj, _) => obj.Ssa? ==> 1 <= obj.id <= |fx.stmts|
      case Phi(edges, values) =>
        |edges| == |values| && forall k :: 0 <= k < |values| && values[k].Ssa? ==> 1 <= values[k].id <= |fx.stmts|
      case _ => true
    }

    method Statement(i: nat)
      requires Valid() && i < |fx.stmts| && IdsInRange(fx.stmts[i].node)
      modifies this`insns, this`ok
      ensures Appended(StmtCode(fx, i))
    {
      match fx.stmts[i].node
      case Call(f, args) =>
        Operands(args);
        match f {
          case Some(insn) => insns := insns + [Binary(insn)];
          case None => ok := false;
        }
        StoreSsa(i);
      case New(isRefType, args) =>
        if !isRefType || |args| != 1 { ok := false; return; }
        Operand(args[0]);
        insns := insns + [CallNewRef];
        StoreSsa(i);
      case GetField(obj, isX) =>
        if !isX { ok := false; return; }
        insns := insns + [LocalGet(RegionLocal(fx))];
        Operand(obj);
        insns := insns + [I32Add];
        insns := insns + [I64Load(0)];
        StoreSsa(i);
      case _ =>
    }

    method BlockStmts(x: nat)
      requires Valid() && x < |fx.blocks| && forall i :: 0 <= i < |fx.stmts| ==> IdsInRange(fx.stmts[i].node)
      modifies this`insns, this`ok
      ensures Appended(StmtsCode(fx, fx.blocks[x].first - 1, fx.blocks[x].last))
    {
      hide StmtCode, IdsInRange;
      ghost var start, okay := insns, ok;
      var lo := fx.blocks[x].first - 1;
      for i := lo to fx.blocks[x].last
        invariant if okay && StmtsCode(fx, lo, i).Some? then ok && insns == start + StmtsCode(fx, lo, i).value else !ok
      {
        Statement(i);
      }
    }

    /** Fail when a move on the edge reads a phi of the target block. */
    method CheckHazard(x: nat, t: nat)
      requires Valid() && t < |fx.blocks|
      modifies this`ok
      ensures ok <==> old(ok) && !Hazard(fx, x, t)
    {
      var lo, hi := fx.blocks[t].first - 1, fx.blocks[t].last;
      for i := lo to hi
        invariant ok <==> old(ok) && forall k :: lo <= k < i ==> !ReadsPhi(x, t, k)
      {
        var op := PhiOperand(fx, x, t, i);
        if op.Some? && ReadsPhiOf(fx, t, op.value) { ok := false; }
        assert ReadsPhi(x, t, i) <==> op.Some? && ReadsPhiOf(fx, t, op.value);
      }
      if Hazard(fx, x, t) {
        var k :| 0 <= k < |fx.stmts| && PhiOperand(fx, x, t, k).Some? && ReadsPhiOf(fx, t, PhiOperand(fx, x, t, k).value);
        assert lo <= k < hi && ReadsPhi(x, t, k);
      }
    }

    predicate ReadsPhi(x: nat, t: nat, i: int)
      requires Valid() && t < |fx.blocks|
    {
      0 <= i < |fx.stmts| && PhiOperand(fx, x, t, i).Some? && ReadsPhiOf(fx, t, PhiOperand(fx, x, t, i).value)
    }

    method EdgeMoves(x: nat, t: nat)
      requires Valid() && t < |fx.blocks| && forall i :: 0 <= i < |fx.stmts| ==> IdsInRange(fx.stmts[i].node)
      modifies this`insns, this`ok
      ensures Appended(EdgeCode(fx, x, t))
    {
      CheckHazard(x, t);
      Moves(x, t);
    }

    method Move(x: nat, t: nat, i: nat)
      requires Valid() && t < |fx.blocks| && i < |fx.stmts| && IdsInRange(fx.stmts[i].node)
      modifies this`insns, this`ok
      ensures Appended(MoveCode(fx, x, t, i))
    {
      var op := PhiOperand(fx, x, t, i);
      if op.Some? {
        Operand(op.value);
        StoreSsa(i);
      }
    }

    /** The moves of the target's phis, in statement order. */
    method Moves(x: nat, t: nat)
      requires Valid() && t < |fx.blocks| && forall i :: 0 <= i < |fx.stmts| ==> IdsInRange(fx.stmts[i].node)
      modifies this`insns, this`ok
      ensures Appended(MovesCode(fx, x, t, |fx.stmts|))
    {
      hide MoveCode;
      var lo, hi := fx.blocks[t].first - 1, fx.blocks[t].last;
      ghost var start, okay := insns, ok;
      MovesBefore(fx, x, t, lo);
      for i := lo to hi
        invariant if okay && MovesCode(fx, x, t, i).Some? then ok && insns == start + MovesCode(fx, x, t, i).value else !ok
      {
        Move(x, t, i);
      }
      MovesAfter(fx, x, t, |fx.stmts|);
    }

    method OpenIf(x: nat)
      requires Valid() && x < |fx.blocks| && TerminatorIdsInRange(x)
      modifies this`insns, this`ok
      ensures Appended(EventCode(fx, R.OpenIf(x)))
    {
      match fx.stmts[fx.blocks[x].last - 1].node
      case GotoIfNot(cond, _) =>
        Operand(cond);
        insns := insns + [IfOpen];
      case _ => ok := false;
    }

    ghost predicate TerminatorIdsInRange(x: nat)
      requires Valid() && x < |fx.blocks|
    {
      var n := fx.stmts[fx.blocks[x].last - 1].node;
      && (n.GotoIfNot? && n.cond.Ssa? ==> 1 <= n.cond.id <= |fx.stmts|)
      && (n.Return? && n.val.Ssa? ==> 1 <= n.val.id <= |fx.stmts|)
    }

    method Ret(x: nat)
      requires Valid() && x < |fx.blocks| && TerminatorIdsInRange(x)
      modifies this`insns, this`ok
      ensures Appended(EventCode(fx, R.Ret(x)))
    {
      match fx.stmts[fx.blocks[x].last - 1].node
      case Return(val) =>
        if HasFrame(fx) {
          insns := insns + [LocalGet(TopLocal(fx)), LocalGet(BaseLocal(fx)), I32Store(0)];
        }
        Operand(val);
        insns := insns + [ReturnInsn];
      case _ => ok := false;
    }
  
    ghost predicate AllIdsInRange()
      requires Valid()
    {
      && (forall i :: 0 <= i < |fx.stmts| ==> IdsInRange(fx.stmts[i].node))
      && (forall x :: 0 <= x < |fx.blocks| ==> TerminatorIdsInRange(x))
    }

    method OnEvent(e: R.Event)
      requires Valid() && AllIdsInRange() && EventInRange(fx, e)
      modifies this`insns, this`ok
      ensures Appended(EventCode(fx, e))
    {
      match e
      case OpenLoop(_) => insns := insns + [LoopOpen];
      case OpenBlock(_) => insns := insns + [BlockOpen];
      case Close => insns := insns + [End];
      case Br(d) => insns := insns + [BrTo(d)];
      case ElseArm => insns := insns + [Else];
      case Stmts(x) => BlockStmts(x);
      case PhiMoves(x, t) => EdgeMoves(x, t);
      case OpenIf(x) => OpenIf(x);
      case Ret(x) => Ret(x);
    }

    method OnEvents(es: seq<R.Event>)
      requires Valid() && AllIdsInRange() && forall e :: e in es ==> EventInRange(fx, e)
      modifies this`insns, this`ok
      ensures Appended(EventsCode(fx, es))
    {
      hide EventCode, AllIdsInRange;
      ghost var start, okay := insns, ok;
      for k := 0 to |es|
        invariant if okay && EventsCode(fx, es[..k]).Some? then ok && insns == start + EventsCode(fx, es[..k]).value else !ok
      {
        assert es[..k + 1][..k] == es[..k];
        OnEvent(es[k]);
      }
      assert es[..|es|] == es;
    }
  }

  predicate EventInRange(fx: Fixture, e: R.Event) {
    match e
    case Stmts(x) => x < |fx.blocks|
    case PhiMoves(_, t) => t < |fx.blocks|
    case OpenIf(x) => x < |fx.blocks|
    case Ret(x) => x < |fx.blocks|
    case _ => true
  }
}
