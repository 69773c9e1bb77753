/** The part of the WebAssembly machine that compiled methods use: straight-line instructions, and structured
    control (section 4.4.5 of the WebAssembly Core Specification 1.0) over a flat list with a program counter. */
module Wasm {
  import opened Fixtures
  import opened Wrappers

  datatype Insn =
    | LocalGet(l: nat) | LocalSet(l: nat)
    | I64Const(v: int) | I32Const(c: nat)
    | Binary(f: Intrinsic)
    | CallNewRef | CallTopAddr | CallRegionBase
    | I32Add | I32Load(off: nat) | I32Store(off: nat) | I64Load(off: nat)
    | LoopOpen | BlockOpen | IfOpen | Else | End | BrTo(depth: nat) | ReturnInsn | Unreachable

  /** Locals, the memory words that compiled code stores to, and the world behind the imports. */
  datatype Machine<W> = Machine(locals: seq<Val>, mem: map<nat, nat>, world: W)

  function Read(mem: map<nat, nat>, a: nat): nat { if a in mem then mem[a] else 0 }

  function Words(mem: map<nat, nat>, from: nat, n: nat): (r: seq<nat>)
    ensures |r| == n && forall i :: 0 <= i < n ==> r[i] == Read(mem, from + 4 * i)
  {
    seq(n, i requires 0 <= i => Read(mem, from + 4 * i))
  }

  /** The live slots of the shadow stack, as the collector reads them: everything below the top. */
  function Shadow<W>(h: Host<W>, mem: map<nat, nat>): seq<nat> {
    var top := Read(mem, h.topCell);
    if top < h.arena then [] else Words(mem, h.arena, (top - h.arena) / 4)
  }

  datatype Line<W> = Line(stack: seq<Val>, m: Machine<W>)

  /** One instruction; `None` when the stack does not fit it. */
  function Step<W>(h: Host<W>, i: Insn, s: Line<W>): Option<Line<W>> {
    var n, m := |s.stack|, s.m;
    match i
    case LocalGet(l) => if l < |m.locals| then Some(Line(s.stack + [m.locals[l]], m)) else None
    case LocalSet(l) =>
      if l < |m.locals| && n > 0 then Some(Line(s.stack[..n - 1], m.(locals := m.locals[l := s.stack[n - 1]]))) else None
    case I64Const(v) => Some(Line(s.stack + [I64(v)], m))
    case I32Const(c) => Some(Line(s.stack + [I32(c)], m))
    case Binary(f) =>
      if n >= 2 && s.stack[n - 2].I64? && s.stack[n - 1].I64?
      then Some(Line(s.stack[..n - 2] + [h.apply(f, s.stack[n - 2].i, s.stack[n - 1].i)], m)) else None
    case CallNewRef =>
      if n > 0 && s.stack[n - 1].I64? then
        var (w, r) := h.alloc(m.world, Shadow(h, m.mem), s.stack[n - 1].i);
        Some(Line(s.stack[..n - 1] + [I32(r)], m.(world := w)))
      else None
    case CallTopAddr => Some(Line(s.stack + [I32(h.topCell)], m))
    case CallRegionBase => Some(Line(s.stack + [I32(h.regionBase)], m))
    case I32Add =>
      if n >= 2 && s.stack[n - 2].I32? && s.stack[n - 1].I32?
      then Some(Line(s.stack[..n - 2] + [I32(Wrap(s.stack[n - 2].n + s.stack[n - 1].n))], m)) else None
    case I32Load(off) =>
      if n > 0 && s.stack[n - 1].I32?
      then Some(Line(s.stack[..n - 1] + [I32(Read(m.mem, s.stack[n - 1].n + off))], m)) else None
    case I32Store(off) =>
      if n >= 2 && s.stack[n - 2].I32? && s.stack[n - 1].I32?
      then Some(Line(s.stack[..n - 2], m.(mem := m.mem[s.stack[n - 2].n + off := s.stack[n - 1].n]))) else None
    case I64Load(off) =>
      if n > 0 && s.stack[n - 1].I32?
      then Some(Line(s.stack[..n - 1] + [I64(h.load(m.world, s.stack[n - 1].n + off))], m)) else None
    case _ => None
  }

  function RunLine<W>(h: Host<W>, code: seq<Insn>, s: Line<W>): Option<Line<W>> {
    if code == [] then Some(s)
    else
      var s1 :- Step(h, code[0], s);
      RunLine(h, code[1..], s1)
  }

  lemma {:induction false} RunLineConcat<W>(h: Host<W>, a: seq<Insn>, b: seq<Insn>, s: Line<W>)
    ensures var r := RunLine(h, a, s);
            RunLine(h, a + b, s) == if r.Some? then RunLine(h, b, r.value) else None
    decreases |a|
  {
    if a == [] {
      assert a + b == b;
    } else {
      assert (a + b)[0] == a[0] && (a + b)[1..] == a[1..] + b;
      var s1 := Step(h, a[0], s);
      if s1.Some? {
        RunLineConcat(h, a[1..], b, s1.value);
      }
    }
  }

  lemma RunCons<W>(h: Host<W>, i: Insn, rest: seq<Insn>, s: Line<W>)
    ensures RunLine(h, [i] + rest, s) == (var s1 := Step(h, i, s); if s1.Some? then RunLine(h, rest, s1.value) else None)
  {
    assert ([i] + rest)[1..] == rest;
  }

  lemma RunOne<W>(h: Host<W>, i: Insn, s: Line<W>)
    ensures RunLine(h, [i], s) == Step(h, i, s)
  {
    RunCons(h, i, [], s);
    assert [i] + [] == [i];
  }

  // --- control -----------------------------------------------------------------------------------

  /** What a branch to a frame does: go back to the start of a loop, or on past the end of a block or if,
      with the operand stack cut down to its height at entry. */
  datatype Label = Back(start: nat, height: nat) | Ahead(end: nat, height: nat)

  datatype Run<W> = Running(pc: nat, stack: seq<Val>, labels: seq<Label>, m: Machine<W>) | Done(value: Val, m: Machine<W>) | Trap

  predicate OpensFrame(i: Insn) { i.LoopOpen? || i.BlockOpen? || i.IfOpen? }

  /** The `End` that matches, from `i` on, `d` frames in. */
  function EndOf(code: seq<Insn>, i: nat, d: nat): nat
    decreases |code| - i
  {
    if i >= |code| then i
    else if OpensFrame(code[i]) then EndOf(code, i + 1, d + 1)
    else if code[i].End? then (if d == 0 then i else EndOf(code, i + 1, d - 1))
    else EndOf(code, i + 1, d)
  }

  /** The `Else` of the frame `i` is in, or its `End` if it has none. */
  function ElseOf(code: seq<Insn>, i: nat, d: nat): nat
    decreases |code| - i
  {
    if i >= |code| then i
    else if OpensFrame(code[i]) then ElseOf(code, i + 1, d + 1)
    else if code[i].End? then (if d == 0 then i else ElseOf(code, i + 1, d - 1))
    else if code[i].Else? && d == 0 then i
    else ElseOf(code, i + 1, d)
  }

  /** Leave the function with the value on top of the stack. */
  function Leave<W>(c: Run<W>): Run<W>
    requires c.Running?
  {
    if c.stack == [] then Trap else Done(c.stack[|c.stack| - 1], c.m)
  }

  /** Branch to the `d`th label from the top; the function body is the outermost one. */
  function Branch<W>(c: Run<W>, d: nat): Run<W>
    requires c.Running?
  {
    if d > |c.labels| then Trap
    else if d == |c.labels| then Leave(c)
    else
      var n := |c.labels| - d;
      var l := c.labels[n - 1];
      if l.height > |c.stack| then Trap
      else
        match l
        case Back(start, height) => Running(start, c.stack[..height], c.labels[..n], c.m)
        case Ahead(end, height) => Running(end, c.stack[..height], c.labels[..n - 1], c.m)
  }

  function StepInsn<W>(h: Host<W>, code: seq<Insn>, c: Run<W>): Run<W> {
    if !c.Running? then c
    else if c.pc >= |code| then Trap
    else
      var n := |c.stack|;
      match code[c.pc]
      case LoopOpen => c.(pc := c.pc + 1, labels := c.labels + [Back(c.pc + 1, n)])
      case BlockOpen =>
        var e := EndOf(code, c.pc + 1, 0);
        if e >= |code| then Trap else c.(pc := c.pc + 1, labels := c.labels + [Ahead(e + 1, n)])
      case IfOpen =>
        var e, a := EndOf(code, c.pc + 1, 0), ElseOf(code, c.pc + 1, 0);
        if e >= |code| || a >= |code| || n == 0 || !c.stack[n - 1].I32? then Trap
        else
          var arm := if c.stack[n - 1].n != 0 then c.pc + 1 else if code[a].Else? then a + 1 else a;
          Running(arm, c.stack[..n - 1], c.labels + [Ahead(e + 1, n - 1)], c.m)
      case Else =>
        var e := EndOf(code, c.pc + 1, 0);
        if e >= |code| then Trap else c.(pc := e)
      case End =>
        if c.labels == [] then Leave(c) else c.(pc := c.pc + 1, labels := c.labels[..|c.labels| - 1])
      case BrTo(d) => Branch(c, d)
      case ReturnInsn => Leave(c)
      case Unreachable => Trap
      case i =>
        var s := Step(h, i, Line(c.stack, c.m));
        if s.Some? then Running(c.pc + 1, s.value.stack, c.labels, s.value.m) else Trap
  }

  function RunInsns<W>(h: Host<W>, code: seq<Insn>, c: Run<W>, n: nat): Run<W>
    decreases n
  {
    if n == 0 then c else RunInsns(h, code, StepInsn(h, code, c), n - 1)
  }

  /** A run that has stopped stays as it is. */
  lemma {:induction false} StoppedStays<W>(h: Host<W>, code: seq<Insn>, c: Run<W>, n: nat)
    requires !c.Running?
    ensures RunInsns(h, code, c, n) == c
    decreases n
  {
    if n > 0 { StoppedStays(h, code, c, n - 1); }
  }

  /** Instructions that are no brackets do not change what a bracket matches. */
  lemma {:induction false} SkipsPlain(code: seq<Insn>, i: nat, j: nat, d: nat)
    requires i <= j <= |code| && forall k :: i <= k < j ==> !OpensFrame(code[k]) && !code[k].End?
    ensures EndOf(code, i, d) == EndOf(code, j, d)
    ensures (forall k :: i <= k < j ==> !code[k].Else?) || d > 0 ==> ElseOf(code, i, d) == ElseOf(code, j, d)
    decreases j - i
  {
    if i < j { SkipsPlain(code, i + 1, j, d); }
  }
}
