/** The lowerer as it works: code is appended and jumps are patched in place. */
module Lowerers {
  import opened Wrappers
  import opened Sources
  import opened Interps
  import opened Lowerings

  /** A jump given its target once that is known. */
  function Patched(i: Instr, target: nat): Instr {
    match i
    case Goto(_) => Goto(target)
    case GotoIfNot(c, _) => GotoIfNot(c, target)
    case Enter(_) => Enter(target)
    case _ => i
  }

  class Lower {
    var code: seq<Instr>
    var slots: Names
    var nslots: nat

    ghost predicate Valid()
      reads this
    {
      nslots == |slots|
    }

    constructor ()
      ensures Valid() && code == [] && slots == map[]
    {
      code, slots, nslots := [], map[], 0;
    }

    method SlotFor(name: string) returns (s: nat)
      requires Valid()
      modifies this`slots, this`nslots
      ensures Valid() && s == SlotOf(old(slots), name) && slots == WithSlot(old(slots), name)
    {
      if name in slots {
        s := slots[name];
        assert slots == WithSlot(slots, name);
      } else {
        s := nslots;
        nslots := nslots + 1;
        slots := slots[name := s];
      }
    }

    method Emit(i: Instr) returns (at: nat)
      modifies this`code
      ensures at == |old(code)| && code == old(code) + [i]
    {
      code := code + [i];
      at := |code| - 1;
    }

    method Patch(at: nat, target: nat)
      requires at < |code|
      modifies this`code
      ensures code == old(code)[at := Patched(old(code)[at], target)]
    {
      code := code[at := Patched(code[at], target)];
    }

    method Expression(e: Expr) returns (op: Op)
      requires Valid()
      modifies this
      ensures Valid()
      ensures var r := LowerExpr(e, |old(code)|, old(slots)); code == old(code) + r.code && slots == r.names && op == r.op
      decreases e
    {
      hide LowerExpr, SlotOf, WithSlot, CallOf;
      match e {
        case Lit(v) =>
          LeafShapes(v, "", |code|, slots);
          op := Const(v);
        case Var(x) =>
          LeafShapes(Null, x, |code|, slots);
          var s := SlotFor(x);
          op := Slot(s);
        case Bin(b, l, r) =>
          BinShape(code, b, l, r, slots);
          var x := Expression(l);
          var y := Expression(r);
          var at := Emit(CallOf(b, x, y));
          op := Ssa(at);
        case Throw(x) =>
          ThrowShape(code, x, slots);
          var v := Expression(x);
          var at := Emit(Raise(v));
          op := Ssa(at);
      }
    }

    method Statements(b: Block) returns (last: Option<Op>)
      requires Valid()
      modifies this
      ensures Valid()
      ensures var r := LowerBlock(b, |old(code)|, old(slots), None); code == old(code) + r.code && slots == r.names && last == r.last
      decreases b, 0
    {
      hide LowerStmt;
      last := None;
      var rest := b;
      ghost var here, names, op := |code|, slots, last;
      ghost var r := LowerBlock(b, here, names, None);
      while rest.Then?
        invariant Valid() && (rest == b || rest < b)
        invariant var t := LowerBlock(rest, |code|, slots, last);
                  code + t.code == old(code) + r.code && t.names == r.names && t.last == r.last
        decreases rest
      {
        ghost var was, t := code, LowerBlock(rest, |code|, slots, last);
        ghost var x := LowerStmt(rest.first, |code|, slots);
        last := Statement(rest.first);
        rest := rest.rest;
        ghost var y := LowerBlock(rest, |code|, slots, last);
        assert was + t.code == was + x.code + y.code;
      }
    }

    method Statement(s: Stmt) returns (last: Option<Op>)
      requires Valid()
      modifies this
      ensures Valid()
      ensures var r := LowerStmt(s, |old(code)|, old(slots)); code == old(code) + r.code && slots == r.names && last == r.last
      decreases s
    {
      match s {
        case Assign(x, e) =>
          var op := Expression(e);
          var slot := SlotFor(x);
          var at := Emit(Store(slot, op));
          last := Some(Slot(slot));
        case Do(e) =>
          var op := Expression(e);
          last := Some(op);
        case If(c, t, f) =>
          LowerIfStmt(c, t, f);
          last := None;
        case While(c, body) =>
          LowerWhileStmt(c, body);
          last := None;
        case Try(body, x, handler) =>
          LowerTryStmt(body, x, handler);
          last := None;
        case Finally(body, cleanup) =>
          LowerFinallyStmt(body, cleanup);
          last := None;
      }
    }

    /** The condition and the first branch; both jumps still lack their targets. */
    method IfHead(c: Expr, t: Block) returns (gif: nat, gend: nat)
      requires Valid()
      modifies this
      ensures Valid()
      ensures var a := LowerExpr(c, |old(code)|, old(slots));
              var x := LowerBlock(t, |old(code)| + |a.code| + 1, a.names, None);
              && gif == |old(code) + a.code| && gend == gif + 1 + |x.code| && slots == x.names
              && code == old(code) + a.code + [GotoIfNot(a.op, 0)] + x.code + [Goto(0)]
      decreases t, 1
    {
      hide LowerExpr, LowerBlock;
      var op := Expression(c);
      gif := Emit(GotoIfNot(op, 0));
      var _ := Statements(t);
      gend := Emit(Goto(0));
    }

    method LowerIfStmt(c: Expr, t: Block, f: Block)
      requires Valid()
      modifies this
      ensures Valid()
      ensures var r := LowerStmt(If(c, t, f), |old(code)|, old(slots)); code == old(code) + r.code && slots == r.names
      decreases If(c, t, f), 0
    {
      hide LowerExpr, LowerBlock, LowerIf, Patched;
      ghost var a := LowerExpr(c, |code|, slots);
      ghost var x := LowerBlock(t, |code| + |a.code| + 1, a.names, None);
      var gif, gend := IfHead(c, t);
      var elseStart := |code|;
      ghost var y := LowerBlock(f, |code|, slots, None);
      var _ := Statements(f);
      var end := |code|;
      Patch(gif, elseStart);
      Patch(gend, end);
      IfAssembled(old(code), a, x, y);
    }

    method LowerWhileStmt(c: Expr, body: Block)
      requires Valid()
      modifies this
      ensures Valid()
      ensures var r := LowerStmt(While(c, body), |old(code)|, old(slots)); code == old(code) + r.code && slots == r.names
      decreases While(c, body), 0
    {
      hide LowerExpr, LowerBlock, LowerWhile, Patched;
      ghost var a := LowerExpr(c, |code|, slots);
      ghost var x := LowerBlock(body, |code| + |a.code| + 1, a.names, None);
      var start := |code|;
      var op := Expression(c);
      var gif := Emit(GotoIfNot(op, 0));
      var _ := Statements(body);
      var back := Emit(Goto(start));
      var end := |code|;
      Patch(gif, end);
      WhileAssembled(old(code), a, x);
    }

    /** The protected region: the handler will start right after it. */
    method TryRegion(body: Block) returns (enter: nat, gend: nat)
      requires Valid()
      modifies this
      ensures Valid()
      ensures var x := LowerBlock(body, |old(code)| + 1, old(slots), None);
              && enter == |old(code)| && gend == |old(code)| + 1 + |x.code| + 1 && slots == x.names
              && code == old(code) + [Enter(gend + 1)] + x.code + [Leave(1)] + [Goto(0)]
      decreases body, 1
    {
      hide LowerBlock, Patched;
      enter := Emit(Enter(0));
      var _ := Statements(body);
      var leave := Emit(Leave(1));
      gend := Emit(Goto(0));
      var catchStart := |code|;
      Patch(enter, catchStart);
      TryHead(old(code), LowerBlock(body, |old(code)| + 1, old(slots), None));
    }

    method LowerTryStmt(body: Block, v: Option<string>, handler: Block)
      requires Valid()
      modifies this
      ensures Valid()
      ensures var r := LowerStmt(Try(body, v, handler), |old(code)|, old(slots)); code == old(code) + r.code && slots == r.names
      decreases Try(body, v, handler), 0
    {
      hide LowerBlock, LowerTry, Patched, LowerBind;
      ghost var x := LowerBlock(body, |code| + 1, slots, None);
      var enter, gend := TryRegion(body);
      ghost var b := LowerBind(v, |code|, slots);
      BindCaught(v);
      ghost var y := LowerBlock(handler, |code|, slots, None);
      var _ := Statements(handler);
      var pop := Emit(PopException(Ssa(enter)));
      var end := |code|;
      Patch(gend, end);
      TryAssembled(old(code), x, b, y);
    }

    /** Bind the caught exception, if it has a name. */
    method BindCaught(v: Option<string>)
      requires Valid()
      modifies this
      ensures Valid()
      ensures var r := LowerBind(v, |old(code)|, old(slots)); code == old(code) + r.code && slots == r.names
    {
      if v.Some? {
        var c := Emit(Caught);
        var slot := SlotFor(v.value);
        var at := Emit(Store(slot, Ssa(c)));
      }
    }

    /** The protected region with the cleanup of its normal path. */
    method FinallyRegion(body: Block, cleanup: Block) returns (gend: nat)
      requires Valid()
      modifies this
      ensures Valid()
      ensures var x := LowerBlock(body, |old(code)| + 1, old(slots), None);
              var y := LowerBlock(cleanup, |old(code)| + 1 + |x.code| + 1, x.names, None);
              && gend == |old(code)| + 1 + |x.code| + 1 + |y.code| && slots == y.names
              && code == old(code) + [Enter(gend + 1)] + x.code + [Leave(1)] + y.code + [Goto(0)]
      decreases Finally(body, cleanup), 0
    {
      hide LowerBlock, Patched;
      ghost var x := LowerBlock(body, |code| + 1, slots, None);
      ghost var y := LowerBlock(cleanup, |code| + 1 + |x.code| + 1, x.names, None);
      var enter := Emit(Enter(0));
      var _ := Statements(body);
      var leave := Emit(Leave(1));
      var _ := Statements(cleanup);
      gend := Emit(Goto(0));
      var catchStart := |code|;
      Patch(enter, catchStart);
      FinallyHead(old(code), x, y);
    }

    method LowerFinallyStmt(body: Block, cleanup: Block)
      requires Valid()
      modifies this
      ensures Valid()
      ensures var r := LowerStmt(Finally(body, cleanup), |old(code)|, old(slots)); code == old(code) + r.code && slots == r.names
      decreases Finally(body, cleanup), 1
    {
      hide LowerBlock, LowerFinally, Patched;
      ghost var x := LowerBlock(body, |code| + 1, slots, None);
      ghost var y := LowerBlock(cleanup, |code| + 1 + |x.code| + 1, x.names, None);
      var gend := FinallyRegion(body, cleanup);
      ghost var z := LowerBlock(cleanup, |code|, slots, None);
      var _ := Statements(cleanup);
      var re := Emit(Rethrow);
      var end := |code|;
      Patch(gend, end);
      FinallyAssembled(old(code), x, y, z);
    }
  }

  // --- the pieces put together ---------------------------------------------------------------------

  lemma ThrowShape(was: seq<Instr>, x: Expr, names: Names)
    ensures var a := LowerExpr(x, |was|, names); var r := LowerExpr(Throw(x), |was|, names);
            was + r.code == was + a.code + [Raise(a.op)] && r.names == a.names && r.op == Ssa(|was + a.code|)
  {
    var a := LowerExpr(x, |was|, names);
    Assoc(was, [], a.code, [Raise(a.op)]);
  }

  lemma BinIs(op: BinOp, l: Expr, r: Expr, at: nat, names: Names)
    ensures var a := LowerExpr(l, at, names); var b := LowerExpr(r, at + |a.code|, a.names);
            LowerExpr(Bin(op, l, r), at, names) == LoweredExpr(a.code + b.code + [CallOf(op, a.op, b.op)], b.names, Ssa(at + |a.code| + |b.code|))
  {
    hide CallOf, SlotOf, WithSlot;
  }

  lemma BinShape(was: seq<Instr>, op: BinOp, l: Expr, r: Expr, names: Names)
    ensures var a := LowerExpr(l, |was|, names); var b := LowerExpr(r, |was + a.code|, a.names);
            var x := LowerExpr(Bin(op, l, r), |was|, names);
            && was + x.code == was + a.code + b.code + [CallOf(op, a.op, b.op)]
            && x.names == b.names && x.op == Ssa(|was + a.code + b.code|)
  {
    hide CallOf, LowerExpr;
    BinIs(op, l, r, |was|, names);
    var a := LowerExpr(l, |was|, names);
    var b := LowerExpr(r, |was| + |a.code|, a.names);
    Assoc(was, a.code, b.code, [CallOf(op, a.op, b.op)]);
  }

  lemma LeafShapes(v: Value, x: string, at: nat, names: Names)
    ensures LowerExpr(Lit(v), at, names) == LoweredExpr([], names, Const(v))
    ensures LowerExpr(Var(x), at, names) == LoweredExpr([], WithSlot(names, x), Slot(SlotOf(names, x)))
  {
  }

  lemma Assoc(w: seq<Instr>, a: seq<Instr>, b: seq<Instr>, c: seq<Instr>)
    ensures w + (a + b + c) == w + a + b + c && w + (b + c) == w + b + c
  {
  }

  lemma IfAssembled(was: seq<Instr>, a: LoweredExpr, x: Lowered, y: Lowered)
    ensures var gif := |was + a.code|;
            var c1 := was + a.code + [GotoIfNot(a.op, 0)] + x.code;
            var c2 := c1 + [Goto(0)];
            var c3 := c2 + y.code;
            var c4 := c3[gif := Patched(c3[gif], |c2|)];
            c4[|c1| := Patched(c4[|c1|], |c3|)] == was + LowerIf(a, |was|, x, y)
  {
    var pre, post := was + a.code, x.code + [Goto(0)] + y.code;
    var c1 := pre + [GotoIfNot(a.op, 0)] + x.code;
    var elseStart := |c1| + 1;
    PatchAt(pre, GotoIfNot(a.op, 0), post, elseStart);
    assert c1 + [Goto(0)] + y.code == pre + [GotoIfNot(a.op, 0)] + post;
    var d1 := pre + [GotoIfNot(a.op, elseStart)] + x.code;
    assert pre + [GotoIfNot(a.op, elseStart)] + post == d1 + [Goto(0)] + y.code;
    PatchAt(d1, Goto(0), y.code, elseStart + |y.code|);
  }

  lemma WhileAssembled(was: seq<Instr>, a: LoweredExpr, x: Lowered)
    ensures var gif := |was + a.code|;
            var c := was + a.code + [GotoIfNot(a.op, 0)] + x.code + [Goto(|was|)];
            c[gif := Patched(c[gif], |c|)] == was + LowerWhile(a, |was|, x)
  {
    var pre, post := was + a.code, x.code + [Goto(|was|)];
    PatchAt(pre, GotoIfNot(a.op, 0), post, |pre| + 1 + |post|);
    assert pre + [GotoIfNot(a.op, 0)] + x.code + [Goto(|was|)] == pre + [GotoIfNot(a.op, 0)] + post;
  }

  lemma TryHead(was: seq<Instr>, x: Lowered)
    ensures var c := was + [Enter(0)] + x.code + [Leave(1)] + [Goto(0)];
            c[|was| := Patched(c[|was|], |c|)] == was + [Enter(|c|)] + x.code + [Leave(1)] + [Goto(0)]
  {
    var post := x.code + [Leave(1)] + [Goto(0)];
    PatchAt(was, Enter(0), post, |was| + 1 + |post|);
    assert was + [Enter(0)] + x.code + [Leave(1)] + [Goto(0)] == was + [Enter(0)] + post;
  }

  lemma TryAssembled(was: seq<Instr>, x: Lowered, b: Lowered, y: Lowered)
    ensures var catchStart := |was| + 1 + |x.code| + 2;
            var c1 := was + [Enter(catchStart)] + x.code + [Leave(1)];
            var c2 := c1 + [Goto(0)] + b.code + y.code + [PopException(Ssa(|was|))];
            c2[|c1| := Patched(c2[|c1|], |c2|)] == was + LowerTry(|was|, x, b, y)
  {
    var catchStart := |was| + 1 + |x.code| + 2;
    var c1 := was + [Enter(catchStart)] + x.code + [Leave(1)];
    var post := b.code + y.code + [PopException(Ssa(|was|))];
    PatchAt(c1, Goto(0), post, |c1| + 1 + |post|);
    assert c1 + [Goto(0)] + b.code + y.code + [PopException(Ssa(|was|))] == c1 + [Goto(0)] + post;
  }

  lemma FinallyHead(was: seq<Instr>, x: Lowered, y: Lowered)
    ensures var c := was + [Enter(0)] + x.code + [Leave(1)] + y.code + [Goto(0)];
            c[|was| := Patched(c[|was|], |c|)] == was + [Enter(|c|)] + x.code + [Leave(1)] + y.code + [Goto(0)]
  {
    var post := x.code + [Leave(1)] + y.code + [Goto(0)];
    PatchAt(was, Enter(0), post, |was| + 1 + |post|);
    assert was + [Enter(0)] + x.code + [Leave(1)] + y.code + [Goto(0)] == was + [Enter(0)] + post;
  }

  lemma FinallyAssembled(was: seq<Instr>, x: Lowered, y: Lowered, z: Lowered)
    ensures var catchStart := |was| + 1 + |x.code| + 1 + |y.code| + 1;
            var c1 := was + [Enter(catchStart)] + x.code + [Leave(1)] + y.code;
            var c2 := c1 + [Goto(0)] + z.code + [Rethrow];
            c2[|c1| := Patched(c2[|c1|], |c2|)] == was + LowerFinally(|was|, x, y, z)
  {
    var catchStart := |was| + 1 + |x.code| + 1 + |y.code| + 1;
    var c1 := was + [Enter(catchStart)] + x.code + [Leave(1)] + y.code;
    var post := z.code + [Rethrow];
    PatchAt(c1, Goto(0), post, |c1| + 1 + |post|);
    assert c1 + [Goto(0)] + z.code + [Rethrow] == c1 + [Goto(0)] + post;
  }

  lemma PatchAt(pre: seq<Instr>, i: Instr, post: seq<Instr>, target: nat)
    ensures (pre + [i] + post)[|pre| := Patched(i, target)] == pre + [Patched(i, target)] + post
  {
  }

  /** Lower a whole program: its code, and the slots of its variables. */
  method LowerSource(b: Block) returns (code: seq<Instr>, slots: Names)
    ensures code == LowerProgram(b).code && slots == LowerProgram(b).names
  {
    hide LowerBlock;
    var l := new Lower();
    var last := l.Statements(b);
    var at := l.Emit(Return(ReturnOf(last)));
    code, slots := l.code, l.slots;
  }
}
