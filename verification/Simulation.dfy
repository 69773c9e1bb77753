/** Lowered code does what the source means: every outcome of the source is the machine's, with the same
    variables, and the handler and exception stacks as they were. */
module Simulation {
  import opened Sources
  import opened Interps
  import opened Lowerings

  // --- code in place ---------------------------------------------------------------------------------

  predicate Placed(p: Program, at: nat, code: seq<Instr>) {
    at + |code| <= |p.code| && p.code[at..at + |code|] == code
  }

  lemma PlacedParts(p: Program, at: nat, a: seq<Instr>, b: seq<Instr>)
    requires Placed(p, at, a + b)
    ensures Placed(p, at, a) && Placed(p, at + |a|, b)
  {
    var n := at + |a + b|;
    assert p.code[at..n][..|a|] == a && p.code[at..n][|a|..] == b;
    assert p.code[at..at + |a|] == p.code[at..n][..|a|];
    assert p.code[at + |a|..n] == p.code[at..n][|a|..];
  }

  lemma PlacedInstr(p: Program, at: nat, i: Instr)
    requires Placed(p, at, [i])
    ensures at < |p.code| && p.code[at] == i
  {
    assert p.code[at..at + 1][0] == i;
  }

  // --- frames --------------------------------------------------------------------------------------------

  /** Slots are slots, and no two variables share one. */
  ghost predicate SlotsOk(names: Names, base: nat) {
    && (forall x :: x in names ==> names[x] < base)
    && (forall x, y :: x in names && y in names && names[x] == names[y] ==> x == y)
  }

  /** The frame holds the variables. */
  ghost predicate Holds(p: Program, names: Names, env: Env, frame: seq<Value>) {
    && |frame| == p.base + |p.code| && SlotsOk(names, p.base)
    && forall x :: x in names ==> frame[names[x]] == Lookup(env, x)
  }

  /** Results of instructions outside `[lo, hi)` are the same. */
  ghost predicate ResultsKept(p: Program, f: seq<Value>, g: seq<Value>, lo: nat, hi: nat) {
    |g| == |f| && forall k: nat :: p.base <= k < |f| && !(p.base + lo <= k < p.base + hi) ==> g[k] == f[k]
  }

  ghost predicate SlotsKept(p: Program, f: seq<Value>, g: seq<Value>) {
    |g| == |f| && forall k: nat :: k < p.base && k < |f| ==> g[k] == f[k]
  }

  lemma KeptTwice(p: Program, f: seq<Value>, g: seq<Value>, h: seq<Value>, lo: nat, mid: nat, hi: nat)
    requires ResultsKept(p, f, g, lo, mid) && ResultsKept(p, g, h, mid, hi) && lo <= mid <= hi
    ensures ResultsKept(p, f, h, lo, hi)
  {
  }

  lemma KeptWider(p: Program, f: seq<Value>, g: seq<Value>, lo: nat, hi: nat, lo': nat, hi': nat)
    requires ResultsKept(p, f, g, lo, hi) && lo' <= lo && hi <= hi'
    ensures ResultsKept(p, f, g, lo', hi')
  {
  }

  /** An operand made by the instructions of `[lo, hi)`, if by any. */
  ghost predicate OpWithin(p: Program, op: Op, lo: nat, hi: nat) {
    match op
    case Const(_) => true
    case Slot(k) => k < p.base
    case Ssa(i) => lo <= i < hi
  }

  lemma ReadKept(p: Program, f: seq<Value>, g: seq<Value>, op: Op, lo: nat, mid: nat, hi: nat)
    requires SlotsKept(p, f, g) && ResultsKept(p, f, g, mid, hi) && OpWithin(p, op, lo, mid)
    ensures Read(p, g, op) == Read(p, f, op)
  {
  }

  lemma HoldsKept(p: Program, names: Names, env: Env, f: seq<Value>, g: seq<Value>)
    requires Holds(p, names, env, f) && SlotsKept(p, f, g)
    ensures Holds(p, names, env, g)
  {
  }

  /** Writing the result of an instruction. */
  lemma ResultWritten(p: Program, names: Names, env: Env, f: seq<Value>, i: nat, v: Value)
    requires Holds(p, names, env, f) && i < |p.code|
    ensures var g := f[p.base + i := v];
            Holds(p, names, env, g) && SlotsKept(p, f, g) && ResultsKept(p, f, g, i, i + 1) && Read(p, g, Ssa(i)) == v
  {
  }

  /** Writing a variable. */
  lemma SlotWritten(p: Program, names: Names, env: Env, f: seq<Value>, x: string, v: Value)
    requires Holds(p, names, env, f) && x in names
    ensures var g := f[names[x] := v]; Holds(p, names, env[x := v], g) && ResultsKept(p, f, g, 0, 0)
  {
  }

  // --- configurations ----------------------------------------------------------------------------------------

  function At(ip: nat, frame: seq<Value>, handlers: seq<nat>, exc: seq<Value>): Conf {
    Running(State(ip, frame, handlers, exc))
  }

  function FrameOf(c: Conf): seq<Value> {
    match c
    case Running(st) => st.frame
    case Finished(_, frame, _) => frame
    case Stuck => []
  }

  /** Control has reached `ip` with the stacks as given. */
  predicate Passed(c: Conf, ip: nat, handlers: seq<nat>, exc: seq<Value>) {
    c.Running? && c.st.ip == ip && c.st.handlers == handlers && c.st.exc == exc
  }

  /** The exception `x` has reached the innermost handler, on top of an exception stack that extends
      `exc`; or it has left the frame. */
  predicate Landed(c: Conf, handlers: seq<nat>, exc: seq<Value>, x: Value) {
    if handlers == [] then c.Finished? && c.answer == Err(x)
    else
      && c.Running? && c.st.ip == handlers[|handlers| - 1] && c.st.handlers == handlers[..|handlers| - 1]
      && |exc| < |c.st.exc| && c.st.exc[..|exc|] == exc && c.st.exc[|c.st.exc| - 1] == x
  }

  /** An exception that lands over a longer stack lands over a shorter one. */
  lemma LandedDeeper(c: Conf, handlers: seq<nat>, exc: seq<Value>, exc': seq<Value>, x: Value)
    requires Landed(c, handlers, exc', x) && |exc| <= |exc'| && exc'[..|exc|] == exc
    ensures Landed(c, handlers, exc, x)
  {
    if handlers != [] {
      assert c.st.exc[..|exc|] == c.st.exc[..|exc'|][..|exc|];
    }
  }

  // --- expressions ---------------------------------------------------------------------------------------------

  /** What running an expression's code comes to. */
  ghost predicate ExprRan(p: Program, c: Conf, a: Answer, end: nat, f: seq<Value>, lo: nat, op: Op, handlers: seq<nat>, exc: seq<Value>) {
    && SlotsKept(p, f, FrameOf(c)) && ResultsKept(p, f, FrameOf(c), lo, end)
    && match a
       case Ok(v) => Passed(c, end, handlers, exc) && Read(p, FrameOf(c), op) == v
       case Err(x) => Landed(c, handlers, exc, x)
  }

  lemma ExprOp(p: Program, names: Names, e: Expr, at: nat, before: Names)
    requires var r := LowerExpr(e, at, before); Extends(r.names, names) && SlotsOk(names, p.base)
    ensures var r := LowerExpr(e, at, before); OpWithin(p, r.op, at, at + |r.code|)
  {
    match e
    case Var(x) => assert x in LowerExpr(e, at, before).names;
    case _ =>
  }

  lemma CallMeaning(host: Host, op: BinOp, x: Op, y: Op, p: Program, f: seq<Value>)
    ensures var i := CallOf(op, x, y);
            i.Call? && p.host.apply(i.b, Read(p, f, i.x), Read(p, f, i.y)) == Meaning(p.host, op, Read(p, f, x), Read(p, f, y))
  {
  }

  /** The last instruction of an expression: it finishes what its operands began. */
  lemma FinishCall(p: Program, names: Names, env: Env, op: BinOp, x: Op, y: Op, at: nat, f: seq<Value>, handlers: seq<nat>, exc: seq<Value>)
    requires Holds(p, names, env, f) && Placed(p, at, [CallOf(op, x, y)])
    ensures var a := Meaning(p.host, op, Read(p, f, x), Read(p, f, y));
            ExprRan(p, StepConf(p, At(at, f, handlers, exc)), a, at + 1, f, at, Ssa(at), handlers, exc)
  {
    PlacedInstr(p, at, CallOf(op, x, y));
    CallMeaning(p.host, op, x, y, p, f);
    var a := Meaning(p.host, op, Read(p, f, x), Read(p, f, y));
    if a.Ok? {
      ResultWritten(p, names, env, f, at, a.value);
    }
  }

  /** An expression's code computes its value, or raises its exception; variables are untouched. */
  lemma {:induction false} ExprSim(p: Program, names: Names, env: Env, e: Expr, at: nat, before: Names, f: seq<Value>, handlers: seq<nat>, exc: seq<Value>)
    returns (n: nat)
    requires var r := LowerExpr(e, at, before); Placed(p, at, r.code) && Extends(r.names, names)
    requires Holds(p, names, env, f)
    ensures var r := LowerExpr(e, at, before);
            ExprRan(p, RunN(p, At(at, f, handlers, exc), n), Eval(p.host, env, e), at + |r.code|, f, at, r.op, handlers, exc)
    decreases e
  {
    hide Holds, Extends, Placed, Meaning, CallOf, SlotsKept, ResultsKept, Step;
    match e {
      case Lit(v) =>
        n := 0;
        NothingRan(p, f, at);
      case Var(x) =>
        n := 0;
        NothingRan(p, f, at);
        ReadVar(p, names, env, x, before, f);
      case Throw(x) =>
        n := ThrowSim(p, names, env, x, at, before, f, handlers, exc);
      case Bin(op, l, r) =>
        n := BinSim(p, names, env, op, l, r, at, before, f, handlers, exc);
    }
  }

  lemma NothingRan(p: Program, f: seq<Value>, at: nat)
    ensures SlotsKept(p, f, f) && ResultsKept(p, f, f, at, at)
  {
  }

  lemma ReadVar(p: Program, names: Names, env: Env, x: string, before: Names, f: seq<Value>)
    requires Holds(p, names, env, f) && Extends(WithSlot(before, x), names)
    ensures Read(p, f, Slot(SlotOf(before, x))) == Lookup(env, x)
  {
    assert x in WithSlot(before, x);
  }

  lemma ThrowShape(host: Host, env: Env, x: Expr, at: nat, before: Names)
    ensures var a := LowerExpr(x, at, before);
            LowerExpr(Throw(x), at, before) == LoweredExpr(a.code + [Raise(a.op)], a.names, Ssa(at + |a.code|))
    ensures var v := Eval(host, env, x); Eval(host, env, Throw(x)) == if v.Err? then v else Err(v.value)
  {
  }

  lemma BinShape(host: Host, env: Env, op: BinOp, l: Expr, r: Expr, at: nat, before: Names)
    ensures var a := LowerExpr(l, at, before);
            var b := LowerExpr(r, at + |a.code|, a.names);
            LowerExpr(Bin(op, l, r), at, before)
            == LoweredExpr(a.code + b.code + [CallOf(op, a.op, b.op)], b.names, Ssa(at + |a.code| + |b.code|))
    ensures var v, w := Eval(host, env, l), Eval(host, env, r);
            Eval(host, env, Bin(op, l, r)) == if v.Err? then v else if w.Err? then w else Meaning(host, op, v.value, w.value)
  {
  }

  lemma ThrowSim(p: Program, names: Names, env: Env, x: Expr, at: nat, before: Names, f: seq<Value>, handlers: seq<nat>, exc: seq<Value>)
    returns (n: nat)
    requires var r := LowerExpr(Throw(x), at, before); Placed(p, at, r.code) && Extends(r.names, names)
    requires Holds(p, names, env, f)
    ensures var r := LowerExpr(Throw(x), at, before);
            ExprRan(p, RunN(p, At(at, f, handlers, exc), n), Eval(p.host, env, Throw(x)), at + |r.code|, f, at, r.op, handlers, exc)
    decreases Throw(x), 0
  {
    hide Holds, Extends, Placed, SlotsKept, ResultsKept, RunN, LowerExpr, Eval;
    ThrowShape(p.host, env, x, at, before);
    var a := LowerExpr(x, at, before);
    PlacedParts(p, at, a.code, [Raise(a.op)]);
    var m := ExprSim(p, names, env, x, at, before, f, handlers, exc);
    var c := RunN(p, At(at, f, handlers, exc), m);
    KeptWider(p, f, FrameOf(c), at, at + |a.code|, at, at + |a.code| + 1);
    n := m;
    if Eval(p.host, env, x).Ok? {
      n := m + 1;
      PlacedInstr(p, at + |a.code|, Raise(a.op));
      RunAdd(p, At(at, f, handlers, exc), m, 1);
      RunOne(p, c);
    }
  }

  lemma BinSim(p: Program, names: Names, env: Env, op: BinOp, l: Expr, r: Expr, at: nat, before: Names, f: seq<Value>, handlers: seq<nat>, exc: seq<Value>)
    returns (n: nat)
    requires var x := LowerExpr(Bin(op, l, r), at, before); Placed(p, at, x.code) && Extends(x.names, names)
    requires Holds(p, names, env, f)
    ensures var x := LowerExpr(Bin(op, l, r), at, before);
            ExprRan(p, RunN(p, At(at, f, handlers, exc), n), Eval(p.host, env, Bin(op, l, r)), at + |x.code|, f, at, x.op, handlers, exc)
    decreases Bin(op, l, r), 0
  {
    hide Holds, Placed, SlotsKept, ResultsKept, Extends, OpWithin, Meaning, CallOf, Step, Landed, RunN, LowerExpr, Eval, Read, Grows;
    BinShape(p.host, env, op, l, r, at, before);
    var a := LowerExpr(l, at, before);
    var b := LowerExpr(r, at + |a.code|, a.names);
    var mid, last := at + |a.code|, at + |a.code| + |b.code|;
    PlacedParts(p, at, a.code + b.code, [CallOf(op, a.op, b.op)]);
    PlacedParts(p, at, a.code, b.code);
    ExprNames(r, mid, a.names);
    ExtendsTwice(a.names, b.names, names);
    var start := At(at, f, handlers, exc);
    var m := ExprSim(p, names, env, l, at, before, f, handlers, exc);
    var c := RunN(p, start, m);
    var g := FrameOf(c);
    KeptWider(p, f, g, at, mid, at, last + 1);
    n := m;
    if Eval(p.host, env, l).Ok? {
      HoldsKept(p, names, env, f, g);
      var m' := ExprSim(p, names, env, r, mid, a.names, g, handlers, exc);
      RunAdd(p, start, m, m');
      var c' := RunN(p, c, m');
      var h := FrameOf(c');
      n := m + m';
      KeptTwice(p, f, g, h, at, mid, last);
      SlotsTwice(p, f, g, h);
      KeptWider(p, f, h, at, last, at, last + 1);
      if Eval(p.host, env, r).Ok? {
        HoldsKept(p, names, env, g, h);
        SlotsOkOf(p, names, env, f);
        ExprOp(p, names, l, at, before);
        ReadKept(p, g, h, a.op, at, mid, last);
        FinishCall(p, names, env, op, a.op, b.op, last, h, handlers, exc);
        RunAdd(p, start, n, 1);
        RunOne(p, c');
        n := n + 1;
        var k := FrameOf(StepConf(p, c'));
        KeptTwice(p, f, h, k, at, last, last + 1);
        SlotsTwice(p, f, h, k);
      }
    }
  }

  lemma ExtendsTwice(a: Names, b: Names, c: Names)
    requires Grows(a, b) && Extends(b, c)
    ensures Extends(a, c)
  {
  }

  lemma SlotsTwice(p: Program, f: seq<Value>, g: seq<Value>, h: seq<Value>)
    requires SlotsKept(p, f, g) && SlotsKept(p, g, h)
    ensures SlotsKept(p, f, h)
  {
  }

  lemma SlotsOkOf(p: Program, names: Names, env: Env, f: seq<Value>)
    requires Holds(p, names, env, f)
    ensures SlotsOk(names, p.base)
  {
  }
}
