/** Emission of a method's leaves: statements, phi moves, conditions, returns, and the gcframe that
    mirrors every reference local on the shadow stack. */
module Emit {
  import opened Fixtures
  import opened Wasm
  import opened Wrappers

  // --- tables ----------------------------------------------------------------------------

  function ProdCount(stmts: seq<Stmt>): nat {
    if stmts == [] then 0
    else ProdCount(stmts[..|stmts| - 1]) + if Produces(stmts[|stmts| - 1].node) then 1 else 0
  }

  /** The local of statement `i`: one per value-producing statement, after the parameters. */
  function LocalOf(fx: Fixture, i: nat): Option<nat>
    requires i < |fx.stmts|
  {
    if Produces(fx.stmts[i].node) then Some(fx.nargs + ProdCount(fx.stmts[..i])) else None
  }

  /** The gcframe slot of statement `i`: one per reference-typed value. */
  function SlotOf(fx: Fixture, i: nat): Option<nat>
    requires i < |fx.stmts|
  {
    if IsRefStmt(fx.stmts[i]) then Some(RefCount(fx.stmts[..i])) else None
  }

  function NRefs(fx: Fixture): nat { RefCount(fx.stmts) }
  predicate HasFrame(fx: Fixture) { NRefs(fx) > 0 }
  predicate HasGetField(fx: Fixture) { exists i :: 0 <= i < |fx.stmts| && fx.stmts[i].node.GetField? }
  function TopLocal(fx: Fixture): nat { fx.nargs + ProdCount(fx.stmts) }
  function BaseLocal(fx: Fixture): nat { TopLocal(fx) + 1 }
  function RegionLocal(fx: Fixture): nat { if HasFrame(fx) then TopLocal(fx) + 2 else TopLocal(fx) }
  function NumLocals(fx: Fixture): nat {
    TopLocal(fx) + (if HasFrame(fx) then 2 else 0) + (if HasGetField(fx) then 1 else 0)
  }

  lemma {:induction false} CountsGrow(stmts: seq<Stmt>, i: nat, j: nat)
    requires i <= j <= |stmts|
    ensures ProdCount(stmts[..i]) <= ProdCount(stmts[..j]) && RefCount(stmts[..i]) <= RefCount(stmts[..j])
    ensures i < j && Produces(stmts[i].node) ==> ProdCount(stmts[..i]) < ProdCount(stmts[..j])
    ensures i < j && IsRefStmt(stmts[i]) ==> RefCount(stmts[..i]) < RefCount(stmts[..j])
    decreases j - i
  {
    if i < j {
      CountsGrow(stmts, i, j - 1);
      assert stmts[..j][..j - 1] == stmts[..j - 1];
    }
  }

  /** Distinct statements have distinct locals and slots, all below the helper locals and the frame size. */
  lemma TablesAreInjective(fx: Fixture, i: nat, j: nat)
    requires i < |fx.stmts| && j < |fx.stmts|
    ensures LocalOf(fx, i).Some? ==> fx.nargs <= LocalOf(fx, i).value < TopLocal(fx)
    ensures SlotOf(fx, i).Some? ==> SlotOf(fx, i).value < NRefs(fx)
    ensures LocalOf(fx, i).Some? && LocalOf(fx, i) == LocalOf(fx, j) ==> i == j
    ensures SlotOf(fx, i).Some? && SlotOf(fx, i) == SlotOf(fx, j) ==> i == j
  {
    CountsGrow(fx.stmts, i, |fx.stmts|);
    assert fx.stmts[..|fx.stmts|] == fx.stmts;
    if i < j { CountsGrow(fx.stmts, i, j); }
    if j < i { CountsGrow(fx.stmts, j, i); }
  }

  // --- leaves ------------------------------------------------------------------------------

  function OperandCode(fx: Fixture, op: Operand): Option<Insn> {
    match op
    case Ssa(id) =>
      if 1 <= id <= |fx.stmts| && LocalOf(fx, id - 1).Some? then Some(LocalGet(LocalOf(fx, id - 1).value)) else None
    case Arg(n) => if n < 2 then None else Some(LocalGet(n - 2))
    case ConstInt(v) => Some(I64Const(v))
    case ConstBool(b) => Some(I32Const(if b then 1 else 0))
    case _ => None
  }

  function OperandsCode(fx: Fixture, ops: seq<Operand>): Option<seq<Insn>> {
    if ops == [] then Some([])
    else
      var rest :- OperandsCode(fx, ops[..|ops| - 1]);
      var last :- OperandCode(fx, ops[|ops| - 1]);
      Some(rest + [last])
  }

  /** Store the value on the stack into statement `i`'s local, and through to its slot if it has one. */
  function SetSsa(fx: Fixture, i: nat): Option<seq<Insn>>
    requires i < |fx.stmts|
  {
    var l :- LocalOf(fx, i);
    var k := SlotOf(fx, i);
    Some([LocalSet(l)] + if k.Some? then [LocalGet(BaseLocal(fx)), LocalGet(l), I32Store(4 * k.value)] else [])
  }

  function StmtCode(fx: Fixture, i: nat): Option<seq<Insn>>
    requires i < |fx.stmts|
  {
    match fx.stmts[i].node
    case Call(f, args) =>
      var ops :- OperandsCode(fx, args);
      var insn :- f;
      var set_ :- SetSsa(fx, i);
      Some(ops + [Binary(insn)] + set_)
    case New(isRefType, args) =>
      if !isRefType || |args| != 1 then None
      else
        var op :- OperandCode(fx, args[0]);
        var set_ :- SetSsa(fx, i);
        Some([op] + [CallNewRef] + set_)
    case GetField(obj, isX) =>
      if !isX then None
      else
        var op :- OperandCode(fx, obj);
        var set_ :- SetSsa(fx, i);
        Some([LocalGet(RegionLocal(fx)), op, I32Add, I64Load(0)] + set_)
    case _ => Some([])
  }

  function StmtsCode(fx: Fixture, lo: nat, hi: nat): Option<seq<Insn>>
    requires lo <= hi <= |fx.stmts|
    decreases hi - lo
  {
    if lo == hi then Some([])
    else
      var rest :- StmtsCode(fx, lo, hi - 1);
      var last :- StmtCode(fx, hi - 1);
      Some(rest + last)
  }

  /** Does some move on the edge read a phi of the target block? */
  predicate Hazard(fx: Fixture, x: nat, t: nat)
    requires t < |fx.blocks| && fx.blocks[t].last <= |fx.stmts|
  {
    exists i :: 0 <= i < |fx.stmts| && PhiOperand(fx, x, t, i).Some? && ReadsPhiOf(fx, t, PhiOperand(fx, x, t, i).value)
  }

  predicate ReadsPhiOf(fx: Fixture, t: nat, op: Operand)
    requires t < |fx.blocks|
  {
    op.Ssa? && fx.blocks[t].first <= op.id <= fx.blocks[t].last && 1 <= op.id <= |fx.stmts| && fx.stmts[op.id - 1].node.Phi?
  }

  function MoveCode(fx: Fixture, x: nat, t: nat, i: nat): Option<seq<Insn>>
    requires i < |fx.stmts| && t < |fx.blocks|
  {
    var op := PhiOperand(fx, x, t, i);
    if op.None? then Some([])
    else
      var get_ :- OperandCode(fx, op.value);
      var set_ :- SetSsa(fx, i);
      Some([get_] + set_)
  }

  /** The moves of the phis among the first `hi` statements, one after another. */
  function MovesCode(fx: Fixture, x: nat, t: nat, hi: nat): Option<seq<Insn>>
    requires hi <= |fx.stmts| && t < |fx.blocks|
  {
    if hi == 0 then Some([])
    else
      var rest :- MovesCode(fx, x, t, hi - 1);
      var last :- MoveCode(fx, x, t, hi - 1);
      Some(rest + last)
  }

  function EdgeCode(fx: Fixture, x: nat, t: nat): Option<seq<Insn>>
    requires t < |fx.blocks| && fx.blocks[t].last <= |fx.stmts|
  {
    if Hazard(fx, x, t) then None else MovesCode(fx, x, t, |fx.stmts|)
  }

  // --- how a machine state represents an SSA state -------------------------------------------

  function FrameBase<W>(h: Host<W>, outer: seq<nat>): nat { h.arena + 4 * |outer| }

  ghost predicate Holds<W>(fx: Fixture, m: Machine<W>, s: State<W>, i: nat)
    requires i < |fx.stmts| == |s.vals|
  {
    LocalOf(fx, i).Some? ==> LocalOf(fx, i).value < |m.locals| && m.locals[LocalOf(fx, i).value] == s.vals[i]
  }

  /** The slot of a reference statement holds its current value. */
  ghost predicate Mirrored<W>(h: Host<W>, fx: Fixture, outer: seq<nat>, m: Machine<W>, s: State<W>, i: nat)
    requires i < |fx.stmts| == |s.vals|
  {
    SlotOf(fx, i).Some? ==> Read(m.mem, FrameBase(h, outer) + 4 * SlotOf(fx, i).value) == Word(s.vals[i])
  }

  ghost predicate Helpers<W>(h: Host<W>, fx: Fixture, outer: seq<nat>, m: Machine<W>) {
    && |m.locals| == NumLocals(fx)
    && (HasFrame(fx) ==> m.locals[TopLocal(fx)] == I32(h.topCell) && m.locals[BaseLocal(fx)] == I32(FrameBase(h, outer)))
    && (HasGetField(fx) ==> m.locals[RegionLocal(fx)] == I32(h.regionBase))
  }

  ghost predicate FrameClaimed<W>(h: Host<W>, fx: Fixture, outer: seq<nat>, mem: map<nat, nat>) {
    && Read(mem, h.topCell) == FrameBase(h, outer) + 4 * NRefs(fx)
    && Words(mem, h.arena, |outer|) == outer
  }

  ghost predicate Represents<W>(h: Host<W>, fx: Fixture, outer: seq<nat>, m: Machine<W>, s: State<W>) {
    && h.topCell + 4 <= h.arena
    && StateOk(fx, s) && m.world == s.world
    && Helpers(h, fx, outer, m)
    && FrameClaimed(h, fx, outer, m.mem)
    && (forall a :: 0 <= a < fx.nargs ==> m.locals[a] == s.args[a])
    && (forall i :: 0 <= i < |fx.stmts| ==> Holds(fx, m, s, i) && Mirrored(h, fx, outer, m, s, i))
  }

  /** What the collector reads below the top is the outer frames and every reference value. */
  lemma {:induction false} SlotsAreRefs<W>(h: Host<W>, fx: Fixture, outer: seq<nat>, m: Machine<W>, s: State<W>, n: nat)
    requires Represents(h, fx, outer, m, s) && n <= |fx.stmts|
    ensures Words(m.mem, FrameBase(h, outer), RefCount(fx.stmts[..n])) == RefVals(fx.stmts[..n], s.vals[..n])
  {
    if n > 0 {
      SlotsAreRefs(h, fx, outer, m, s, n - 1);
      assert fx.stmts[..n][..n - 1] == fx.stmts[..n - 1] && s.vals[..n][..n - 1] == s.vals[..n - 1];
      assert Mirrored(h, fx, outer, m, s, n - 1);
    }
  }

  lemma ShadowIsRefs<W>(h: Host<W>, fx: Fixture, outer: seq<nat>, m: Machine<W>, s: State<W>)
    requires Represents(h, fx, outer, m, s)
    ensures Shadow(h, m.mem) == outer + RefVals(fx.stmts, s.vals)
  {
    SlotsAreRefs(h, fx, outer, m, s, |fx.stmts|);
    assert fx.stmts[..|fx.stmts|] == fx.stmts && s.vals[..|s.vals|] == s.vals;
    var sh := Shadow(h, m.mem);
    assert |sh| == |outer| + NRefs(fx);
    forall k | 0 <= k < |sh| ensures sh[k] == (outer + RefVals(fx.stmts, s.vals))[k] {
      if k < |outer| {
        assert Words(m.mem, h.arena, |outer|)[k] == outer[k];
      } else {
        assert Words(m.mem, FrameBase(h, outer), NRefs(fx))[k - |outer|] == Read(m.mem, FrameBase(h, outer) + 4 * (k - |outer|));
      }
    }
  }

  // --- one statement ---------------------------------------------------------------------------

  lemma OperandRuns<W>(h: Host<W>, fx: Fixture, outer: seq<nat>, m: Machine<W>, s: State<W>, op: Operand, stack: seq<Val>)
    requires Represents(h, fx, outer, m, s) && OperandTy(fx, op).Some?
    ensures OperandCode(fx, op).Some?
    ensures Step(h, OperandCode(fx, op).value, Line(stack, m)) == Some(Line(stack + [Eval(s, op)], m))
    ensures HasTy(Eval(s, op), OperandTy(fx, op).value)
  {
    EvalTyped(fx, s, op);
    if op.Ssa? {
      assert Holds(fx, m, s, op.id - 1);
    }
  }

  /** The machine after statement `i` has been given value `v`. */
  function Stored<W>(h: Host<W>, fx: Fixture, outer: seq<nat>, m: Machine<W>, i: nat, v: Val): Machine<W>
    requires i < |fx.stmts| && LocalOf(fx, i).Some? && LocalOf(fx, i).value < |m.locals|
  {
    var k := SlotOf(fx, i);
    m.(locals := m.locals[LocalOf(fx, i).value := v],
       mem := if k.Some? then m.mem[FrameBase(h, outer) + 4 * k.value := Word(v)] else m.mem)
  }

  lemma StoredRepresents<W>(h: Host<W>, fx: Fixture, outer: seq<nat>, m: Machine<W>, s: State<W>, i: nat, v: Val)
    requires Represents(h, fx, outer, m, s) && i < |fx.stmts| && LocalOf(fx, i).Some? && HasTy(v, fx.stmts[i].ty)
    ensures LocalOf(fx, i).value < |m.locals|
    ensures Represents(h, fx, outer, Stored(h, fx, outer, m, i, v), s.(vals := s.vals[i := v]))
  {
    TablesAreInjective(fx, i, i);
    var m', s' := Stored(h, fx, outer, m, i, v), s.(vals := s.vals[i := v]);
    forall j | 0 <= j < |fx.stmts| ensures Holds(fx, m', s', j) && Mirrored(h, fx, outer, m', s', j) {
      assert Holds(fx, m, s, j) && Mirrored(h, fx, outer, m, s, j);
      TablesAreInjective(fx, i, j);
    }
    forall k | 0 <= k < |outer| ensures Words(m'.mem, h.arena, |outer|)[k] == outer[k] {
      assert Words(m.mem, h.arena, |outer|)[k] == outer[k];
    }
  }

  /** `c` pushes `v` and changes nothing else. */
  ghost predicate Pushes<W>(h: Host<W>, c: Insn, m: Machine<W>, v: Val) {
    forall stack: seq<Val> :: Step(h, c, Line(stack, m)) == Some(Line(stack + [v], m))
  }

  lemma PushThen<W>(h: Host<W>, c: Insn, rest: seq<Insn>, m: Machine<W>, v: Val, stack: seq<Val>)
    requires Pushes(h, c, m, v)
    ensures RunLine(h, [c] + rest, Line(stack, m)) == RunLine(h, rest, Line(stack + [v], m))
  {
    RunCons(h, c, rest, Line(stack, m));
  }

  lemma SetThen<W>(h: Host<W>, l: nat, rest: seq<Insn>, m: Machine<W>, v: Val, stack: seq<Val>)
    requires l < |m.locals|
    ensures RunLine(h, [LocalSet(l)] + rest, Line(stack + [v], m)) == RunLine(h, rest, Line(stack, m.(locals := m.locals[l := v])))
  {
    RunCons(h, LocalSet(l), rest, Line(stack + [v], m));
    assert (stack + [v])[..|stack|] == stack;
  }

  lemma LoadThen<W>(h: Host<W>, rest: seq<Insn>, m: Machine<W>, a: nat, stack: seq<Val>)
    ensures RunLine(h, [I32Load(0)] + rest, Line(stack + [I32(a)], m)) == RunLine(h, rest, Line(stack + [I32(Read(m.mem, a))], m))
  {
    RunCons(h, I32Load(0), rest, Line(stack + [I32(a)], m));
    assert (stack + [I32(a)])[..|stack|] == stack;
  }

  lemma AddThen<W>(h: Host<W>, rest: seq<Insn>, m: Machine<W>, a: nat, b: nat, stack: seq<Val>)
    ensures RunLine(h, [I32Add] + rest, Line(stack + [I32(a)] + [I32(b)], m)) ==
            RunLine(h, rest, Line(stack + [I32(Wrap(a + b))], m))
  {
    hide Wrap;
    var top := stack + [I32(a)] + [I32(b)];
    RunCons(h, I32Add, rest, Line(top, m));
    assert top[..|top| - 2] == stack;
  }

  lemma StoreThen<W>(h: Host<W>, k: nat, rest: seq<Insn>, m: Machine<W>, a: nat, v: nat, stack: seq<Val>)
    ensures RunLine(h, [I32Store(k)] + rest, Line(stack + [I32(a)] + [I32(v)], m)) ==
            RunLine(h, rest, Line(stack, m.(mem := m.mem[a + k := v])))
  {
    var top := stack + [I32(a)] + [I32(v)];
    RunCons(h, I32Store(k), rest, Line(top, m));
    assert top[..|top| - 2] == stack;
  }

  lemma RunNothing<W>(h: Host<W>, s: Line<W>)
    ensures RunLine(h, [], s) == Some(s)
  {
  }

  lemma StoreLine<W>(h: Host<W>, m: Machine<W>, base: nat, l: nat, k: nat, addr: nat, v: Val, stack: seq<Val>)
    requires Pushes(h, LocalGet(base), m, I32(addr)) && Pushes(h, LocalGet(l), m, v) && v.I32?
    ensures RunLine(h, [LocalGet(base), LocalGet(l), I32Store(k)], Line(stack, m)) ==
            Some(Line(stack, m.(mem := m.mem[addr + k := v.n])))
  {
    hide RunLine, Step, Pushes;
    assert [LocalGet(base), LocalGet(l), I32Store(k)] == [LocalGet(base)] + ([LocalGet(l)] + ([I32Store(k)] + []));
    PushThen(h, LocalGet(base), [LocalGet(l)] + ([I32Store(k)] + []), m, I32(addr), stack);
    PushThen(h, LocalGet(l), [I32Store(k)] + [], m, v, stack + [I32(addr)]);
    StoreThen(h, k, [], m, addr, v.n, stack);
    RunNothing(h, Line(stack, m.(mem := m.mem[addr + k := v.n])));
  }

  lemma SetRuns<W>(h: Host<W>, fx: Fixture, outer: seq<nat>, m: Machine<W>, s: State<W>, i: nat, v: Val, stack: seq<Val>)
    requires Represents(h, fx, outer, m, s) && i < |fx.stmts| && SetSsa(fx, i).Some? && HasTy(v, fx.stmts[i].ty)
    ensures LocalOf(fx, i).Some? && LocalOf(fx, i).value < |m.locals|
    ensures RunLine(h, SetSsa(fx, i).value, Line(stack + [v], m)) == Some(Line(stack, Stored(h, fx, outer, m, i, v)))
    ensures Represents(h, fx, outer, Stored(h, fx, outer, m, i, v), s.(vals := s.vals[i := v]))
  {
    StoredRepresents(h, fx, outer, m, s, i, v);
    TablesAreInjective(fx, i, i);
    var l, k := LocalOf(fx, i).value, SlotOf(fx, i);
    var m1 := m.(locals := m.locals[l := v]);
    assert Step(h, LocalSet(l), Line(stack + [v], m)) == Some(Line(stack, m1)) by {
      assert (stack + [v])[..|stack|] == stack;
    }
    hide Represents, RunLine;
    if k.None? {
      RunOne(h, LocalSet(l), Line(stack + [v], m));
      assert [LocalSet(l)] + [] == [LocalSet(l)];
    } else {
      RunCons(h, LocalSet(l), [LocalGet(BaseLocal(fx)), LocalGet(l), I32Store(4 * k.value)], Line(stack + [v], m));
      StoreLine(h, m1, BaseLocal(fx), l, 4 * k.value, FrameBase(h, outer), v, stack);
    }
  }

  /** Running `code` from an empty stack takes a machine that represents `s` to one that represents `s'`. */
  ghost predicate Realizes<W>(h: Host<W>, fx: Fixture, outer: seq<nat>, code: seq<Insn>, m: Machine<W>, s': State<W>) {
    var r := RunLine(h, code, Line([], m));
    r.Some? && r.value.stack == [] && Represents(h, fx, outer, r.value.m, s')
  }

  lemma ThenSet<W>(h: Host<W>, fx: Fixture, outer: seq<nat>, m: Machine<W>, code: seq<Insn>, m1: Machine<W>, s1: State<W>, i: nat, v: Val)
    requires RunLine(h, code, Line([], m)) == Some(Line([v], m1)) && Represents(h, fx, outer, m1, s1)
    requires i < |fx.stmts| && SetSsa(fx, i).Some? && HasTy(v, fx.stmts[i].ty)
    ensures Realizes(h, fx, outer, code + SetSsa(fx, i).value, m, s1.(vals := s1.vals[i := v]))
  {
    RunLineConcat(h, code, SetSsa(fx, i).value, Line([], m));
    SetRuns(h, fx, outer, m1, s1, i, v, []);
    assert [] + [v] == [v];
  }

  lemma OperandPushes<W>(h: Host<W>, fx: Fixture, outer: seq<nat>, m: Machine<W>, s: State<W>, op: Operand)
    requires Represents(h, fx, outer, m, s) && OperandTy(fx, op).Some?
    ensures OperandCode(fx, op).Some? && Pushes(h, OperandCode(fx, op).value, m, Eval(s, op))
    ensures HasTy(Eval(s, op), OperandTy(fx, op).value)
  {
    EvalTyped(fx, s, op);
    forall stack: seq<Val> ensures Step(h, OperandCode(fx, op).value, Line(stack, m)) == Some(Line(stack + [Eval(s, op)], m)) {
      OperandRuns(h, fx, outer, m, s, op, stack);
    }
  }

  lemma BinaryThen<W>(h: Host<W>, f: Intrinsic, m: Machine<W>, a: Val, b: Val)
    requires a.I64? && b.I64?
    ensures RunLine(h, [Binary(f)], Line([] + [a] + [b], m)) == Some(Line([h.apply(f, a.i, b.i)], m))
  {
    var top := [] + [a] + [b];
    RunOne(h, Binary(f), Line(top, m));
    assert top[..0] + [h.apply(f, a.i, b.i)] == [h.apply(f, a.i, b.i)];
  }

  lemma BinaryLine<W>(h: Host<W>, c0: Insn, c1: Insn, f: Intrinsic, m: Machine<W>, a: Val, b: Val)
    requires Pushes(h, c0, m, a) && Pushes(h, c1, m, b) && a.I64? && b.I64?
    ensures RunLine(h, [c0] + [c1] + [Binary(f)], Line([], m)) == Some(Line([h.apply(f, a.i, b.i)], m))
  {
    hide RunLine, Step, Pushes;
    assert [c0] + [c1] + [Binary(f)] == [c0] + ([c1] + [Binary(f)]);
    PushThen(h, c0, [c1] + [Binary(f)], m, a, []);
    PushThen(h, c1, [Binary(f)], m, b, [] + [a]);
    BinaryThen(h, f, m, a, b);
  }

  lemma NewLine<W>(h: Host<W>, c: Insn, m: Machine<W>, v: Val)
    requires Pushes(h, c, m, v) && v.I64?
    ensures var (w, r) := h.alloc(m.world, Shadow(h, m.mem), v.i);
            RunLine(h, [c] + [CallNewRef], Line([], m)) == Some(Line([I32(r)], m.(world := w)))
  {
    PushThen(h, c, [CallNewRef], m, v, []);
    assert [] + [v] == [v];
    RunOne(h, CallNewRef, Line([v], m));
    var (w, r) := h.alloc(m.world, Shadow(h, m.mem), v.i);
    assert [v][..0] + [I32(r)] == [I32(r)];
  }

  lemma FieldThen<W>(h: Host<W>, rest: seq<Insn>, m: Machine<W>, a: nat, stack: seq<Val>)
    ensures RunLine(h, [I64Load(0)] + rest, Line(stack + [I32(a)], m)) == RunLine(h, rest, Line(stack + [I64(h.load(m.world, a))], m))
  {
    RunCons(h, I64Load(0), rest, Line(stack + [I32(a)], m));
    assert (stack + [I32(a)])[..|stack|] == stack;
  }

  lemma LoadLine<W>(h: Host<W>, g: Insn, c: Insn, m: Machine<W>, base: nat, o: nat)
    requires Pushes(h, g, m, I32(base)) && Pushes(h, c, m, I32(o))
    ensures RunLine(h, [g, c, I32Add, I64Load(0)], Line([], m)) == Some(Line([I64(h.load(m.world, Wrap(base + o)))], m))
  {
    hide RunLine, Step, Pushes, Wrap;
    var c3 := [I64Load(0)] + [];
    var c2 := [I32Add] + c3;
    var c1 := [c] + c2;
    assert [g, c, I32Add, I64Load(0)] == [g] + c1;
    PushThen(h, g, c1, m, I32(base), []);
    PushThen(h, c, c2, m, I32(o), [] + [I32(base)]);
    AddThen(h, c3, m, base, o, []);
    FieldThen(h, [], m, Wrap(base + o), []);
    var v := I64(h.load(m.world, Wrap(base + o)));
    RunNothing(h, Line([] + [v], m));
    assert [] + [v] == [v];
  }

  lemma CallRuns<W(!new)>(h: Host<W>, fx: Fixture, outer: seq<nat>, m: Machine<W>, s: State<W>, i: nat)
    requires HostOk(h) && Typed(fx) && Represents(h, fx, outer, m, s) && i < |fx.stmts| && fx.stmts[i].node.Call?
    ensures StmtCode(fx, i).Some? && Realizes(h, fx, outer, StmtCode(fx, i).value, m, RunStmt(h, outer, fx, s, i))
  {
    hide Represents, RunLine, Pushes, Realizes;
    assert StmtTyped(fx, fx.stmts[i]);
    var f, args := fx.stmts[i].node.f.value, fx.stmts[i].node.args;
    OperandPushes(h, fx, outer, m, s, args[0]);
    OperandPushes(h, fx, outer, m, s, args[1]);
    var c0, c1 := OperandCode(fx, args[0]).value, OperandCode(fx, args[1]).value;
    var a, b := Eval(s, args[0]), Eval(s, args[1]);
    TwoOperands(fx, args);
    BinaryLine(h, c0, c1, f, m, a, b);
    ThenSet(h, fx, outer, m, [c0] + [c1] + [Binary(f)], m, s, i, h.apply(f, a.i, b.i));
  }

  lemma TwoOperands(fx: Fixture, args: seq<Operand>)
    requires |args| == 2 && OperandCode(fx, args[0]).Some? && OperandCode(fx, args[1]).Some?
    ensures OperandsCode(fx, args) == Some([OperandCode(fx, args[0]).value] + [OperandCode(fx, args[1]).value])
  {
    var one := args[..1];
    assert one[..0] == [] && one[0] == args[0];
    assert OperandsCode(fx, one) == Some([] + [OperandCode(fx, args[0]).value]);
    assert [] + [OperandCode(fx, args[0]).value] == [OperandCode(fx, args[0]).value];
  }

  lemma WorldRepresents<W>(h: Host<W>, fx: Fixture, outer: seq<nat>, m: Machine<W>, s: State<W>, w: W)
    requires Represents(h, fx, outer, m, s)
    ensures Represents(h, fx, outer, m.(world := w), s.(world := w))
  {
    var m1, s1 := m.(world := w), s.(world := w);
    forall j | 0 <= j < |fx.stmts| ensures Holds(fx, m1, s1, j) && Mirrored(h, fx, outer, m1, s1, j) {
      assert Holds(fx, m, s, j) && Mirrored(h, fx, outer, m, s, j);
    }
  }

  lemma NewRuns<W(!new)>(h: Host<W>, fx: Fixture, outer: seq<nat>, m: Machine<W>, s: State<W>, i: nat)
    requires Typed(fx) && Represents(h, fx, outer, m, s) && i < |fx.stmts| && fx.stmts[i].node.New?
    ensures StmtCode(fx, i).Some? && Realizes(h, fx, outer, StmtCode(fx, i).value, m, RunStmt(h, outer, fx, s, i))
  {
    assert StmtTyped(fx, fx.stmts[i]);
    var op := fx.stmts[i].node.args[0];
    OperandPushes(h, fx, outer, m, s, op);
    ShadowIsRefs(h, fx, outer, m, s);
    var c, v := OperandCode(fx, op).value, Eval(s, op);
    NewLine(h, c, m, v);
    var (w, r) := h.alloc(s.world, outer + RefVals(fx.stmts, s.vals), v.i);
    WorldRepresents(h, fx, outer, m, s, w);
    ThenSet(h, fx, outer, m, [c] + [CallNewRef], m.(world := w), s.(world := w), i, I32(r));
  }

  lemma GetFieldRuns<W(!new)>(h: Host<W>, fx: Fixture, outer: seq<nat>, m: Machine<W>, s: State<W>, i: nat)
    requires Typed(fx) && Represents(h, fx, outer, m, s) && i < |fx.stmts| && fx.stmts[i].node.GetField?
    ensures StmtCode(fx, i).Some? && Realizes(h, fx, outer, StmtCode(fx, i).value, m, RunStmt(h, outer, fx, s, i))
  {
    assert StmtTyped(fx, fx.stmts[i]);
    var op := fx.stmts[i].node.obj;
    OperandPushes(h, fx, outer, m, s, op);
    var g, c, o := LocalGet(RegionLocal(fx)), OperandCode(fx, op).value, Eval(s, op);
    assert Pushes(h, g, m, I32(h.regionBase));
    hide Represents, RunLine, Pushes, Realizes;
    LoadLine(h, g, c, m, h.regionBase, o.n);
    ThenSet(h, fx, outer, m, [g, c, I32Add, I64Load(0)], m, s, i, I64(h.load(m.world, Wrap(h.regionBase + o.n))));
  }

  lemma StmtRuns<W(!new)>(h: Host<W>, fx: Fixture, outer: seq<nat>, m: Machine<W>, s: State<W>, i: nat)
    requires HostOk(h) && Typed(fx) && Represents(h, fx, outer, m, s) && i < |fx.stmts|
    ensures StmtCode(fx, i).Some? && Realizes(h, fx, outer, StmtCode(fx, i).value, m, RunStmt(h, outer, fx, s, i))
  {
    match fx.stmts[i].node
    case Call(_, _) => CallRuns(h, fx, outer, m, s, i);
    case New(_, _) => NewRuns(h, fx, outer, m, s, i);
    case GetField(_, _) => GetFieldRuns(h, fx, outer, m, s, i);
    case _ =>
  }

  // --- a whole block and a whole edge ------------------------------------------------------------

  lemma RealizesThen<W>(h: Host<W>, fx: Fixture, outer: seq<nat>, a: seq<Insn>, b: seq<Insn>, m: Machine<W>, s1: State<W>, s2: State<W>)
    requires Realizes(h, fx, outer, a, m, s1)
    requires Realizes(h, fx, outer, b, RunLine(h, a, Line([], m)).value.m, s2)
    ensures Realizes(h, fx, outer, a + b, m, s2)
  {
    RunLineConcat(h, a, b, Line([], m));
  }

  lemma {:induction false} StmtsRun<W(!new)>(h: Host<W>, fx: Fixture, outer: seq<nat>, m: Machine<W>, s: State<W>, lo: nat, hi: nat)
    requires HostOk(h) && Typed(fx) && Represents(h, fx, outer, m, s) && lo <= hi <= |fx.stmts|
    ensures StmtsCode(fx, lo, hi).Some?
    ensures Realizes(h, fx, outer, StmtsCode(fx, lo, hi).value, m, RunStmts(h, outer, fx, s, lo, hi))
    decreases hi - lo
  {
    if lo == hi {
      RunNothing(h, Line([], m));
    } else {
      assert |s.vals| == |fx.stmts|;
      hide RunLine, Represents, Typed, StmtCode, RunStmt;
      StmtsRun(h, fx, outer, m, s, lo, hi - 1);
      var before, s1 := StmtsCode(fx, lo, hi - 1).value, RunStmts(h, outer, fx, s, lo, hi - 1);
      var m1 := RunLine(h, before, Line([], m)).value.m;
      StmtRuns(h, fx, outer, m1, s1, hi - 1);
      RealizesThen(h, fx, outer, before, StmtCode(fx, hi - 1).value, m, s1, RunStmts(h, outer, fx, s, lo, hi));
    }
  }

  /** A phi's operand has the phi's type. */
  lemma PhiOperandTyped(fx: Fixture, x: nat, t: nat, i: nat)
    requires Typed(fx) && i < |fx.stmts| && t < |fx.blocks| && PhiOperand(fx, x, t, i).Some?
    ensures OperandTy(fx, PhiOperand(fx, x, t, i).value) == Some(fx.stmts[i].ty) && fx.stmts[i].node.Phi?
  {
    assert StmtTyped(fx, fx.stmts[i]);
  }

  /** Without a hazard the moves already made leave every later move's operand alone. */
  lemma OperandUntouched<W>(fx: Fixture, s: State<W>, x: nat, t: nat, i: nat, hi: nat)
    requires Typed(fx) && |s.vals| == |fx.stmts| && t < |fx.blocks| && i < |fx.stmts|
    requires !Hazard(fx, x, t) && PhiOperand(fx, x, t, i).Some?
    ensures Eval(TakePhis(fx, s, x, t, hi), PhiOperand(fx, x, t, i).value) == Eval(s, PhiOperand(fx, x, t, i).value)
  {
    var op := PhiOperand(fx, x, t, i).value;
    assert !ReadsPhiOf(fx, t, op);
    if op.Ssa? && 1 <= op.id <= |fx.stmts| {
      assert PhiOperand(fx, x, t, op.id - 1).None?;
    }
  }

  lemma MoveRuns<W>(h: Host<W>, fx: Fixture, outer: seq<nat>, m: Machine<W>, s: State<W>, x: nat, t: nat, i: nat)
    requires Typed(fx) && |s.vals| == |fx.stmts| && t < |fx.blocks| && i < |fx.stmts| && !Hazard(fx, x, t)
    requires Represents(h, fx, outer, m, TakePhis(fx, s, x, t, i))
    ensures MoveCode(fx, x, t, i).Some? && Realizes(h, fx, outer, MoveCode(fx, x, t, i).value, m, TakePhis(fx, s, x, t, i + 1))
  {
    var s1, s2 := TakePhis(fx, s, x, t, i), TakePhis(fx, s, x, t, i + 1);
    if PhiOperand(fx, x, t, i).None? {
      assert s1.vals == s2.vals;
    } else {
      PhiOperandTyped(fx, x, t, i);
      var op := PhiOperand(fx, x, t, i).value;
      OperandUntouched(fx, s, x, t, i, i);
      OperandPushes(h, fx, outer, m, s1, op);
      var c, v := OperandCode(fx, op).value, Eval(s1, op);
      PushThen(h, c, [], m, v, []);
      assert [c] + [] == [c] && [] + [v] == [v];
      assert s2.vals == s1.vals[i := v];
      ThenSet(h, fx, outer, m, [c], m, s1, i, v);
    }
  }

  lemma {:induction false} MovesRun<W>(h: Host<W>, fx: Fixture, outer: seq<nat>, m: Machine<W>, s: State<W>, x: nat, t: nat, hi: nat)
    requires Typed(fx) && Represents(h, fx, outer, m, s) && t < |fx.blocks| && hi <= |fx.stmts| && !Hazard(fx, x, t)
    ensures MovesCode(fx, x, t, hi).Some?
    ensures Realizes(h, fx, outer, MovesCode(fx, x, t, hi).value, m, TakePhis(fx, s, x, t, hi))
  {
    if hi == 0 {
      NoMoves(h, fx, outer, m, s, x, t);
    } else {
      assert |s.vals| == |fx.stmts|;
      hide RunLine, Represents, Hazard, MoveCode, Typed, TakePhis, PhiOperand;
      MovesRun(h, fx, outer, m, s, x, t, hi - 1);
      var before := MovesCode(fx, x, t, hi - 1).value;
      MoveAfter(h, fx, outer, m, s, x, t, hi - 1, before);
    }
  }

  lemma NoMoves<W>(h: Host<W>, fx: Fixture, outer: seq<nat>, m: Machine<W>, s: State<W>, x: nat, t: nat)
    requires Represents(h, fx, outer, m, s) && t < |fx.blocks|
    ensures Realizes(h, fx, outer, [], m, TakePhis(fx, s, x, t, 0))
  {
    assert TakePhis(fx, s, x, t, 0).vals == s.vals;
  }

  lemma MoveAfter<W>(h: Host<W>, fx: Fixture, outer: seq<nat>, m: Machine<W>, s: State<W>, x: nat, t: nat, i: nat, before: seq<Insn>)
    requires Typed(fx) && |s.vals| == |fx.stmts| && t < |fx.blocks| && i < |fx.stmts| && !Hazard(fx, x, t)
    requires Realizes(h, fx, outer, before, m, TakePhis(fx, s, x, t, i))
    ensures MoveCode(fx, x, t, i).Some?
    ensures Realizes(h, fx, outer, before + MoveCode(fx, x, t, i).value, m, TakePhis(fx, s, x, t, i + 1))
  {
    hide RunLine, Represents, Hazard, MoveCode, Typed, TakePhis;
    var m1 := RunLine(h, before, Line([], m)).value.m;
    MoveRuns(h, fx, outer, m1, s, x, t, i);
    RealizesThen(h, fx, outer, before, MoveCode(fx, x, t, i).value, m, TakePhis(fx, s, x, t, i), TakePhis(fx, s, x, t, i + 1));
  }

  /** Where emission accepts an edge, its moves in sequence have the effect of all phis at once. */
  lemma EdgeRuns<W>(h: Host<W>, fx: Fixture, outer: seq<nat>, m: Machine<W>, s: State<W>, x: nat, t: nat)
    requires Typed(fx) && Represents(h, fx, outer, m, s) && t < |fx.blocks| && EdgeCode(fx, x, t).Some?
    ensures Realizes(h, fx, outer, EdgeCode(fx, x, t).value, m, TakeEdge(fx, s, x, t))
  {
    MovesRun(h, fx, outer, m, s, x, t, |fx.stmts|);
  }

  // --- entry and exit ------------------------------------------------------------------------------

  function CondCode(fx: Fixture, x: nat): Option<Insn>
    requires x < |fx.blocks| && 1 <= fx.blocks[x].last <= |fx.stmts|
  {
    var n := fx.stmts[fx.blocks[x].last - 1].node;
    if n.GotoIfNot? then OperandCode(fx, n.cond) else None
  }

  /** Restore the shadow top, then push the result. */
  function RetCode(fx: Fixture, x: nat): Option<seq<Insn>>
    requires x < |fx.blocks| && 1 <= fx.blocks[x].last <= |fx.stmts|
  {
    var n := fx.stmts[fx.blocks[x].last - 1].node;
    if !n.Return? then None
    else
      var op :- OperandCode(fx, n.val);
      Some((if HasFrame(fx) then [LocalGet(TopLocal(fx)), LocalGet(BaseLocal(fx)), I32Store(0)] else []) + [op])
  }

  function ZeroSlots(fx: Fixture, n: nat): seq<Insn> {
    if n == 0 then [] else ZeroSlots(fx, n - 1) + [LocalGet(BaseLocal(fx)), I32Const(0), I32Store(4 * (n - 1))]
  }

  /** Load the top, zero the claimed slots, bump the top, and fetch the region base. */
  function Prologue(fx: Fixture): seq<Insn> {
    (if !HasFrame(fx) then [] else
       [CallTopAddr, LocalSet(TopLocal(fx)), LocalGet(TopLocal(fx)), I32Load(0), LocalSet(BaseLocal(fx))]
       + ZeroSlots(fx, NRefs(fx))
       + [LocalGet(TopLocal(fx)), LocalGet(BaseLocal(fx)), I32Const(4 * NRefs(fx)), I32Add, I32Store(0)])
    + (if HasGetField(fx) then [CallRegionBase, LocalSet(RegionLocal(fx))] else [])
  }

  lemma CondRuns<W>(h: Host<W>, fx: Fixture, outer: seq<nat>, m: Machine<W>, s: State<W>, x: nat)
    requires Typed(fx) && Represents(h, fx, outer, m, s) && x < |fx.blocks| && fx.stmts[fx.blocks[x].last - 1].node.GotoIfNot?
    ensures CondCode(fx, x).Some?
    ensures exists c :: Pushes(h, CondCode(fx, x).value, m, I32(c)) && (c != 0 <==> Condition(fx, s, x))
  {
    var i := fx.blocks[x].last - 1;
    assert StmtTyped(fx, fx.stmts[i]);
    OperandPushes(h, fx, outer, m, s, fx.stmts[i].node.cond);
    var v := Eval(s, fx.stmts[i].node.cond);
    assert Pushes(h, CondCode(fx, x).value, m, I32(v.n));
  }

  /** A finished activation: the method's result, the world the IR leaves, every parameter and SSA local at its IR
      value, the shadow top back at its entry value and the callers' slots untouched. */
  ghost predicate Finished<W>(h: Host<W>, fx: Fixture, outer: seq<nat>, v: Val, m: Machine<W>, s: State<W>, x: nat)
    requires x < |fx.blocks| && 1 <= fx.blocks[x].last <= |fx.stmts|
  {
    && v == ResultOf(fx, s, x) && m.world == s.world
    && StateOk(fx, s) && |m.locals| == NumLocals(fx)
    && (forall a :: 0 <= a < fx.nargs ==> m.locals[a] == s.args[a])
    && (forall i :: 0 <= i < |fx.stmts| ==> Holds(fx, m, s, i))
    && Read(m.mem, h.topCell) == FrameBase(h, outer)
    && Words(m.mem, h.arena, |outer|) == outer
  }

  /** A return pushes the method's result, puts the top back to what it was on entry and leaves the
      outer frames' slots as they were. */
  lemma ReturnRuns<W>(h: Host<W>, fx: Fixture, outer: seq<nat>, m: Machine<W>, s: State<W>, x: nat)
    requires Typed(fx) && Represents(h, fx, outer, m, s) && x < |fx.blocks| && fx.stmts[fx.blocks[x].last - 1].node.Return?
    ensures RetCode(fx, x).Some?
    ensures var r := RunLine(h, RetCode(fx, x).value, Line([], m));
            r.Some? && |r.value.stack| == 1 && Finished(h, fx, outer, r.value.stack[0], r.value.m, s, x)
  {
    var i := fx.blocks[x].last - 1;
    assert StmtTyped(fx, fx.stmts[i]);
    var op := fx.stmts[i].node.val;
    OperandPushes(h, fx, outer, m, s, op);
    var c, v := OperandCode(fx, op).value, Eval(s, op);
    assert [] + [v] == [v] && [c] + [] == [c] && [] + [c] == [c];
    if !HasFrame(fx) {
      PushThen(h, c, [], m, v, []);
    } else {
      var top, base := TopLocal(fx), BaseLocal(fx);
      var m1 := m.(mem := m.mem[h.topCell := FrameBase(h, outer)]);
      StoreLine(h, m, top, base, 0, h.topCell, I32(FrameBase(h, outer)), []);
      RunLineConcat(h, [LocalGet(top), LocalGet(base), I32Store(0)], [c], Line([], m));
      OperandIgnoresMemory(fx, h, op, m, m1, v);
      PushThen(h, c, [], m1, v, []);
      forall k | 0 <= k < |outer| ensures Words(m1.mem, h.arena, |outer|)[k] == outer[k] {
        assert Words(m.mem, h.arena, |outer|)[k] == outer[k];
      }
      forall i | 0 <= i < |fx.stmts| ensures Holds(fx, m1, s, i) {
        assert Holds(fx, m, s, i);
      }
    }
  }

  lemma OperandIgnoresMemory<W>(fx: Fixture, h: Host<W>, op: Operand, m: Machine<W>, m1: Machine<W>, v: Val)
    requires OperandCode(fx, op).Some? && Pushes(h, OperandCode(fx, op).value, m, v) && m1.locals == m.locals
    ensures Pushes(h, OperandCode(fx, op).value, m1, v)
  {
    var c := OperandCode(fx, op).value;
    forall stack: seq<Val> ensures Step(h, c, Line(stack, m1)) == Some(Line(stack + [v], m1)) {
      assert Step(h, c, Line(stack, m)) == Some(Line(stack + [v], m));
      if !c.LocalGet? {
        assert (stack + [v])[|stack|] == v;
      } else {
        assert (stack + [v])[|stack|] == v && (stack + [m.locals[c.l]])[|stack|] == m.locals[c.l];
      }
    }
  }

  // --- the prologue --------------------------------------------------------------------------------

  function ZeroVals(stmts: seq<Stmt>): (r: seq<Val>)
    ensures |r| == |stmts| && forall i :: 0 <= i < |r| ==> r[i] == Zero(stmts[i].ty)
  {
    seq(|stmts|, i requires 0 <= i < |stmts| => Zero(stmts[i].ty))
  }

  /** A fresh activation: parameters, zeroed locals, and the shadow stack of the callers. */
  ghost predicate Entry<W>(h: Host<W>, fx: Fixture, outer: seq<nat>, m: Machine<W>, args: seq<Val>) {
    && h.topCell + 4 <= h.arena && FrameBase(h, outer) + 4 * NRefs(fx) < WORD
    && |m.locals| == NumLocals(fx) && |args| == fx.nargs && (forall a :: a in args ==> a.I64?)
    && (forall a :: 0 <= a < fx.nargs ==> m.locals[a] == args[a])
    && (forall i :: 0 <= i < |fx.stmts| ==> StartsZero(fx, m, i))
    && Read(m.mem, h.topCell) == FrameBase(h, outer) && Words(m.mem, h.arena, |outer|) == outer
  }

  ghost predicate StartsZero<W>(fx: Fixture, m: Machine<W>, i: nat)
    requires i < |fx.stmts|
  {
    LocalOf(fx, i).Some? ==> LocalOf(fx, i).value < |m.locals| && m.locals[LocalOf(fx, i).value] == Zero(fx.stmts[i].ty)
  }

  lemma LoadTopLine<W>(h: Host<W>, m: Machine<W>, top: nat, base: nat)
    requires top < |m.locals| && base < |m.locals| && top != base
    ensures RunLine(h, [CallTopAddr, LocalSet(top), LocalGet(top), I32Load(0), LocalSet(base)], Line([], m)) ==
            Some(Line([], m.(locals := m.locals[top := I32(h.topCell)][base := I32(Read(m.mem, h.topCell))])))
  {
    var a := I32(h.topCell);
    var m1 := m.(locals := m.locals[top := a]);
    assert Pushes(h, CallTopAddr, m, a) && Pushes(h, LocalGet(top), m1, a);
    hide RunLine, Step, Pushes;
    var c4 := [LocalSet(base)] + [];
    var c3 := [I32Load(0)] + c4;
    var c2 := [LocalGet(top)] + c3;
    var c1 := [LocalSet(top)] + c2;
    assert [CallTopAddr, LocalSet(top), LocalGet(top), I32Load(0), LocalSet(base)] == [CallTopAddr] + c1;
    PushThen(h, CallTopAddr, c1, m, a, []);
    SetThen(h, top, c2, m, a, []);
    PushThen(h, LocalGet(top), c3, m1, a, []);
    LoadThen(h, c4, m1, h.topCell, []);
    SetThen(h, base, [], m1, I32(Read(m.mem, h.topCell)), []);
    RunNothing(h, Line([], m1.(locals := m1.locals[base := I32(Read(m.mem, h.topCell))])));
  }

  /** Memory with the first `n` slots of the frame zeroed. */
  function Zeroed(mem: map<nat, nat>, base: nat, n: nat): (r: map<nat, nat>)
    ensures forall k :: 0 <= k < n ==> Read(r, base + 4 * k) == 0
    ensures forall a: nat :: a < base ==> Read(r, a) == Read(mem, a)
  {
    if n == 0 then mem else Zeroed(mem, base, n - 1)[base + 4 * (n - 1) := 0]
  }

  lemma {:induction false} ZeroSlotsRun<W>(h: Host<W>, fx: Fixture, m: Machine<W>, base: nat, n: nat)
    requires BaseLocal(fx) < |m.locals| && m.locals[BaseLocal(fx)] == I32(base)
    ensures RunLine(h, ZeroSlots(fx, n), Line([], m)) == Some(Line([], m.(mem := Zeroed(m.mem, base, n))))
  {
    if n > 0 {
      ZeroSlotsRun(h, fx, m, base, n - 1);
      var m1 := m.(mem := Zeroed(m.mem, base, n - 1));
      var l, k := BaseLocal(fx), 4 * (n - 1);
      RunLineConcat(h, ZeroSlots(fx, n - 1), [LocalGet(l), I32Const(0), I32Store(k)], Line([], m));
      ZeroSlotLine(h, m1, l, base, k);
    }
  }

  lemma ZeroSlotLine<W>(h: Host<W>, m: Machine<W>, l: nat, base: nat, k: nat)
    requires l < |m.locals| && m.locals[l] == I32(base)
    ensures RunLine(h, [LocalGet(l), I32Const(0), I32Store(k)], Line([], m)) == Some(Line([], m.(mem := m.mem[base + k := 0])))
  {
    assert Pushes(h, LocalGet(l), m, I32(base)) && Pushes(h, I32Const(0), m, I32(0));
    hide RunLine, Step, Pushes;
    var c2 := [I32Store(k)] + [];
    var c1 := [I32Const(0)] + c2;
    assert [LocalGet(l), I32Const(0), I32Store(k)] == [LocalGet(l)] + c1;
    PushThen(h, LocalGet(l), c1, m, I32(base), []);
    PushThen(h, I32Const(0), c2, m, I32(0), [] + [I32(base)]);
    StoreThen(h, k, [], m, base, 0, []);
    RunNothing(h, Line([], m.(mem := m.mem[base + k := 0])));
  }

  lemma AddStoreLine<W>(h: Host<W>, m: Machine<W>, at: nat, b: nat, n: nat)
    requires b + n < WORD
    ensures RunLine(h, [I32Add] + ([I32Store(0)] + []), Line([] + [I32(at)] + [I32(b)] + [I32(n)], m)) ==
            Some(Line([], m.(mem := m.mem[at := b + n])))
  {
    assert Wrap(b + n) == b + n;
    hide RunLine, Step, Wrap;
    AddThen(h, [I32Store(0)] + [], m, b, n, [] + [I32(at)]);
    StoreThen(h, 0, [], m, at, b + n, []);
    RunNothing(h, Line([], m.(mem := m.mem[at := b + n])));
  }

  lemma BumpLine<W>(h: Host<W>, m: Machine<W>, top: nat, base: nat, n: nat, at: nat, b: nat)
    requires top < |m.locals| && base < |m.locals| && m.locals[top] == I32(at) && m.locals[base] == I32(b) && b + n < WORD
    ensures RunLine(h, [LocalGet(top), LocalGet(base), I32Const(n), I32Add, I32Store(0)], Line([], m)) ==
            Some(Line([], m.(mem := m.mem[at := b + n])))
  {
    assert Pushes(h, LocalGet(top), m, I32(at)) && Pushes(h, LocalGet(base), m, I32(b)) && Pushes(h, I32Const(n), m, I32(n));
    hide RunLine, Step, Pushes;
    var c3 := [I32Add] + ([I32Store(0)] + []);
    var c2 := [I32Const(n)] + c3;
    var c1 := [LocalGet(base)] + c2;
    assert [LocalGet(top), LocalGet(base), I32Const(n), I32Add, I32Store(0)] == [LocalGet(top)] + c1;
    PushThen(h, LocalGet(top), c1, m, I32(at), []);
    PushThen(h, LocalGet(base), c2, m, I32(b), [] + [I32(at)]);
    PushThen(h, I32Const(n), c3, m, I32(n), [] + [I32(at)] + [I32(b)]);
    AddStoreLine(h, m, at, b, n);
  }

  lemma RegionLine<W>(h: Host<W>, m: Machine<W>, l: nat)
    requires l < |m.locals|
    ensures RunLine(h, [CallRegionBase, LocalSet(l)], Line([], m)) == Some(Line([], m.(locals := m.locals[l := I32(h.regionBase)])))
  {
    var v := I32(h.regionBase);
    assert Pushes(h, CallRegionBase, m, v);
    hide RunLine, Step, Pushes;
    var c := [LocalSet(l)] + [];
    assert [CallRegionBase, LocalSet(l)] == [CallRegionBase] + c;
    PushThen(h, CallRegionBase, c, m, v, []);
    SetThen(h, l, [], m, v, []);
    RunNothing(h, Line([], m.(locals := m.locals[l := v])));
  }

  function FrameMem<W>(h: Host<W>, fx: Fixture, outer: seq<nat>, mem: map<nat, nat>): map<nat, nat> {
    if HasFrame(fx) then
      Zeroed(mem, FrameBase(h, outer), NRefs(fx))[h.topCell := FrameBase(h, outer) + 4 * NRefs(fx)]
    else mem
  }

  function EntryLocals<W>(h: Host<W>, fx: Fixture, outer: seq<nat>, locals: seq<Val>): seq<Val>
    requires |locals| == NumLocals(fx)
  {
    var l1 := if HasFrame(fx) then locals[TopLocal(fx) := I32(h.topCell)][BaseLocal(fx) := I32(FrameBase(h, outer))] else locals;
    if HasGetField(fx) then l1[RegionLocal(fx) := I32(h.regionBase)] else l1
  }

  lemma PrologueLine<W>(h: Host<W>, fx: Fixture, outer: seq<nat>, m: Machine<W>, args: seq<Val>)
    requires Entry(h, fx, outer, m, args)
    ensures RunLine(h, Prologue(fx), Line([], m)) ==
            Some(Line([], Machine(EntryLocals(h, fx, outer, m.locals), FrameMem(h, fx, outer, m.mem), m.world)))
  {
    hide RunLine, Step, Words, RefCount, ProdCount;
    var top, base, b := TopLocal(fx), BaseLocal(fx), FrameBase(h, outer);
    var m3 := m;
    var claim: seq<Insn> := [];
    if HasFrame(fx) {
      var m1 := m.(locals := m.locals[top := I32(h.topCell)][base := I32(b)]);
      var m2 := m1.(mem := Zeroed(m.mem, b, NRefs(fx)));
      m3 := m2.(mem := m2.mem[h.topCell := b + 4 * NRefs(fx)]);
      var c1 := [CallTopAddr, LocalSet(top), LocalGet(top), I32Load(0), LocalSet(base)];
      var c2 := ZeroSlots(fx, NRefs(fx));
      var c3 := [LocalGet(top), LocalGet(base), I32Const(4 * NRefs(fx)), I32Add, I32Store(0)];
      LoadTopLine(h, m, top, base);
      ZeroSlotsRun(h, fx, m1, b, NRefs(fx));
      BumpLine(h, m2, top, base, 4 * NRefs(fx), h.topCell, b);
      RunLineConcat(h, c1, c2, Line([], m));
      RunLineConcat(h, c1 + c2, c3, Line([], m));
      claim := c1 + c2 + c3;
    } else {
      RunNothing(h, Line([], m));
    }
    assert RunLine(h, claim, Line([], m)) == Some(Line([], m3));
    if HasGetField(fx) {
      RegionLine(h, m3, RegionLocal(fx));
      RunLineConcat(h, claim, [CallRegionBase, LocalSet(RegionLocal(fx))], Line([], m));
    } else {
      assert claim + [] == claim;
    }
  }

  /** After the prologue the machine represents the method's initial SSA state. */
  lemma PrologueRuns<W>(h: Host<W>, fx: Fixture, outer: seq<nat>, m: Machine<W>, args: seq<Val>)
    requires Typed(fx) && Entry(h, fx, outer, m, args)
    ensures Realizes(h, fx, outer, Prologue(fx), m, State(ZeroVals(fx.stmts), args, m.world))
  {
    PrologueLine(h, fx, outer, m, args);
    hide RunLine, Prologue, RefCount, ProdCount;
    var s := State(ZeroVals(fx.stmts), args, m.world);
    var mem, m' := FrameMem(h, fx, outer, m.mem), RunLine(h, Prologue(fx), Line([], m)).value.m;
    forall i | 0 <= i < |fx.stmts| ensures Holds(fx, m', s, i) && Mirrored(h, fx, outer, m', s, i) {
      TablesAreInjective(fx, i, i);
      assert StartsZero(fx, m, i);
    }
    forall k | 0 <= k < |outer| ensures Words(mem, h.arena, |outer|)[k] == outer[k] {
      assert Words(m.mem, h.arena, |outer|)[k] == outer[k];
    }
  }
}
