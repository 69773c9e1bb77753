/** Statements: the lowered code of each ends as the source says it ends. */
module StmtSimulation {
  import opened Wrappers
  import opened Sources
  import opened Interps
  import opened Lowerings
  import opened Simulation

  ghost predicate LastOk(p: Program, frame: seq<Value>, op: Option<Op>, last: Option<Value>) {
    op.Some? == last.Some? && (op.Some? ==> Read(p, frame, op.value) == last.value)
  }

  /** What running a statement's code for `n` steps comes to.  Normal completion leaves both stacks as
      they were; an exception is at its handler; and a source run that takes more than `fuel` repetitions
      of loops keeps the machine running for at least that many steps. */
  ghost predicate Ran(p: Program, names: Names, c: Conf, o: Outcome, fuel: nat, n: nat, end: nat,
                      f: seq<Value>, lo: nat, op: Option<Op>, handlers: seq<nat>, exc: seq<Value>) {
    match o
    case Done(env, last) =>
      && Passed(c, end, handlers, exc) && Holds(p, names, env, FrameOf(c)) && ResultsKept(p, f, FrameOf(c), lo, end)
      && LastOk(p, FrameOf(c), op, last)
    case Raised(env, x) =>
      Landed(c, handlers, exc, x) && Holds(p, names, env, FrameOf(c)) && ResultsKept(p, f, FrameOf(c), lo, end)
    case Timeout => c.Running? && fuel <= n
  }

  /** What has run for `m` steps goes on for `k` more. */
  lemma Continue(p: Program, names: Names, start: Conf, m: nat, k: nat, o: Outcome, fuel: nat, mid: nat, end: nat,
                 f: seq<Value>, lo: nat, op: Option<Op>, handlers: seq<nat>, exc: seq<Value>)
    requires var c := RunN(p, start, m);
             && ResultsKept(p, f, FrameOf(c), lo, mid) && lo <= mid <= end
             && Ran(p, names, RunN(p, c, k), o, fuel, k, end, FrameOf(c), mid, op, handlers, exc)
    ensures Ran(p, names, RunN(p, start, m + k), o, fuel, m + k, end, f, lo, op, handlers, exc)
  {
    hide Holds, ResultsKept, RunN, Landed, LastOk;
    RunAdd(p, start, m, k);
    var c := RunN(p, start, m);
    if !o.Timeout? {
      KeptTwice(p, f, FrameOf(c), FrameOf(RunN(p, c, k)), lo, mid, end);
    }
  }

  /** An end inside a larger statement. */
  lemma Widen(p: Program, names: Names, c: Conf, o: Outcome, fuel: nat, n: nat, end: nat, end': nat,
              f: seq<Value>, lo: nat, op: Option<Op>, op': Option<Op>, handlers: seq<nat>, exc: seq<Value>)
    requires Ran(p, names, c, o, fuel, n, end, f, lo, op, handlers, exc) && !o.Done? && end <= end'
    ensures Ran(p, names, c, o, fuel, n, end', f, lo, op', handlers, exc)
  {
    hide Holds, Landed;
  }

  lemma OneStep(p: Program, c: Conf, n: nat)
    ensures RunN(p, c, n + 1) == StepConf(p, RunN(p, c, n))
  {
    hide RunN;
    RunAdd(p, c, n, 1);
    RunOne(p, RunN(p, c, n));
  }

  /** A jump out of a completed part, to the end of the statement it belongs to. */
  lemma JumpOut(p: Program, names: Names, start: Conf, n: nat, env: Env, last: Option<Value>, fuel: nat, mid: nat, end: nat,
                f: seq<Value>, lo: nat, op: Option<Op>, handlers: seq<nat>, exc: seq<Value>)
    requires Ran(p, names, RunN(p, start, n), Done(env, last), fuel, n, mid, f, lo, op, handlers, exc)
    requires Placed(p, mid, [Goto(end)]) && mid <= end
    ensures Ran(p, names, RunN(p, start, n + 1), Done(env, None), fuel, n + 1, end, f, lo, None, handlers, exc)
  {
    hide Holds, RunN, Placed;
    PlacedInstr(p, mid, Goto(end));
    OneStep(p, start, n);
    KeptWider(p, f, FrameOf(RunN(p, start, n)), lo, mid, lo, end);
  }

  // --- statements without blocks -------------------------------------------------------------------------

  lemma AssignSim(p: Program, names: Names, fuel: nat, env: Env, x: string, e: Expr, at: nat, before: Names, f: seq<Value>, handlers: seq<nat>, exc: seq<Value>)
    returns (n: nat)
    requires var r := LowerStmt(Assign(x, e), at, before); Placed(p, at, r.code) && Extends(r.names, names)
    requires Holds(p, names, env, f)
    ensures var r := LowerStmt(Assign(x, e), at, before);
            Ran(p, names, RunN(p, At(at, f, handlers, exc), n), Exec(p.host, fuel, env, Assign(x, e)), fuel, n, at + |r.code|, f, at, r.last, handlers, exc)
  {
    hide Holds, Extends, Placed, SlotsKept, ResultsKept, RunN, LowerExpr, Eval, Landed, WithSlot, SlotOf, Step;
    var a := LowerExpr(e, at, before);
    var k, last := SlotOf(a.names, x), at + |a.code|;
    PlacedParts(p, at, a.code, [Store(k, a.op)]);
    AssignedSlot(a.names, x, names);
    n := ExprSim(p, names, env, e, at, before, f, handlers, exc);
    var start := At(at, f, handlers, exc);
    var c := RunN(p, start, n);
    HoldsKept(p, names, env, f, FrameOf(c));
    KeptWider(p, f, FrameOf(c), at, last, at, last + 1);
    if Eval(p.host, env, e).Ok? {
      OneStep(p, start, n);
      n := n + 1;
      StoreStep(p, names, env, x, a.op, last, FrameOf(c), handlers, exc);
      KeptTwice(p, f, FrameOf(c), FrameOf(StepConf(p, c)), at, last, last + 1);
    }
  }

  lemma AssignedSlot(before: Names, x: string, names: Names)
    requires Extends(WithSlot(before, x), names)
    ensures Extends(before, names) && x in names && names[x] == SlotOf(before, x)
  {
    assert x in WithSlot(before, x);
    forall y | y in before ensures y in names && names[y] == before[y] {
      assert y in WithSlot(before, x);
    }
  }

  lemma StoreStep(p: Program, names: Names, env: Env, x: string, op: Op, at: nat, f: seq<Value>, handlers: seq<nat>, exc: seq<Value>)
    requires Holds(p, names, env, f) && x in names && Placed(p, at, [Store(names[x], op)])
    ensures var c, v := StepConf(p, At(at, f, handlers, exc)), Read(p, f, op);
            && Passed(c, at + 1, handlers, exc) && Holds(p, names, env[x := v], FrameOf(c))
            && ResultsKept(p, f, FrameOf(c), at, at + 1) && Read(p, FrameOf(c), Slot(names[x])) == v
  {
    PlacedInstr(p, at, Store(names[x], op));
    var v := Read(p, f, op);
    SlotWritten(p, names, env, f, x, v);
    ResultWritten(p, names, env[x := v], f[names[x] := v], at, v);
  }

  lemma DoSim(p: Program, names: Names, fuel: nat, env: Env, e: Expr, at: nat, before: Names, f: seq<Value>, handlers: seq<nat>, exc: seq<Value>)
    returns (n: nat)
    requires var r := LowerStmt(Do(e), at, before); Placed(p, at, r.code) && Extends(r.names, names)
    requires Holds(p, names, env, f)
    ensures var r := LowerStmt(Do(e), at, before);
            Ran(p, names, RunN(p, At(at, f, handlers, exc), n), Exec(p.host, fuel, env, Do(e)), fuel, n, at + |r.code|, f, at, r.last, handlers, exc)
  {
    hide Holds, Extends, Placed, SlotsKept, ResultsKept, RunN, LowerExpr, Eval, Landed;
    n := ExprSim(p, names, env, e, at, before, f, handlers, exc);
    HoldsKept(p, names, env, f, FrameOf(RunN(p, At(at, f, handlers, exc), n)));
  }

  /** A condition's code and its jump: the machine is at the next instruction or at the target. */
  lemma CondSim(p: Program, names: Names, env: Env, e: Expr, at: nat, before: Names, target: nat, f: seq<Value>, handlers: seq<nat>, exc: seq<Value>)
    returns (n: nat)
    requires var r := LowerExpr(e, at, before); Placed(p, at, r.code + [GotoIfNot(r.op, target)]) && Extends(r.names, names)
    requires Holds(p, names, env, f)
    ensures var r := LowerExpr(e, at, before);
            var c := RunN(p, At(at, f, handlers, exc), n);
            && Holds(p, names, env, FrameOf(c)) && ResultsKept(p, f, FrameOf(c), at, at + |r.code| + 1)
            && match Eval(p.host, env, e)
               case Ok(v) => Passed(c, if p.host.truth(v) then at + |r.code| + 1 else target, handlers, exc)
               case Err(x) => Landed(c, handlers, exc, x)
  {
    hide Holds, Extends, Placed, SlotsKept, ResultsKept, RunN, LowerExpr, Eval, Landed;
    var a := LowerExpr(e, at, before);
    PlacedParts(p, at, a.code, [GotoIfNot(a.op, target)]);
    n := ExprSim(p, names, env, e, at, before, f, handlers, exc);
    var start := At(at, f, handlers, exc);
    HoldsKept(p, names, env, f, FrameOf(RunN(p, start, n)));
    KeptWider(p, f, FrameOf(RunN(p, start, n)), at, at + |a.code|, at, at + |a.code| + 1);
    if Eval(p.host, env, e).Ok? {
      PlacedInstr(p, at + |a.code|, GotoIfNot(a.op, target));
      OneStep(p, start, n);
      n := n + 1;
    }
  }

  /** The same, when what runs next may write results anywhere in the statement. */
  lemma ContinueWithin(p: Program, names: Names, start: Conf, m: nat, k: nat, o: Outcome, fuel': nat, fuel: nat, end: nat,
                       f: seq<Value>, lo: nat, op: Option<Op>, handlers: seq<nat>, exc: seq<Value>)
    requires var c := RunN(p, start, m);
             && ResultsKept(p, f, FrameOf(c), lo, end) && fuel <= fuel' + m
             && Ran(p, names, RunN(p, c, k), o, fuel', k, end, FrameOf(c), lo, op, handlers, exc)
    ensures Ran(p, names, RunN(p, start, m + k), o, fuel, m + k, end, f, lo, op, handlers, exc)
  {
    hide Holds, RunN, Landed, LastOk;
    RunAdd(p, start, m, k);
  }

  lemma Quieten(p: Program, names: Names, c: Conf, o: Outcome, fuel: nat, n: nat, end: nat,
                f: seq<Value>, lo: nat, op: Option<Op>, handlers: seq<nat>, exc: seq<Value>)
    requires Ran(p, names, c, o, fuel, n, end, f, lo, op, handlers, exc)
    ensures Ran(p, names, c, Quiet(o), fuel, n, end, f, lo, None, handlers, exc)
  {
    hide Holds, ResultsKept, Landed;
  }

  lemma RanRaised(p: Program, names: Names, c: Conf, env: Env, x: Value, fuel: nat, n: nat, end: nat,
                  f: seq<Value>, lo: nat, hi: nat, op: Option<Op>, handlers: seq<nat>, exc: seq<Value>)
    requires Landed(c, handlers, exc, x) && Holds(p, names, env, FrameOf(c)) && ResultsKept(p, f, FrameOf(c), lo, hi) && hi <= end
    ensures Ran(p, names, c, Raised(env, x), fuel, n, end, f, lo, op, handlers, exc)
  {
    hide Holds, Landed;
  }

  lemma PassedIsAt(c: Conf, ip: nat, handlers: seq<nat>, exc: seq<Value>)
    requires Passed(c, ip, handlers, exc)
    ensures c == At(ip, FrameOf(c), handlers, exc)
  {
  }

  // --- blocks and branches -----------------------------------------------------------------------------

  lemma {:induction false} BlockSim(p: Program, names: Names, fuel: nat, env: Env, b: Block, at: nat, before: Names, op: Option<Op>, last: Option<Value>,
                                    f: seq<Value>, handlers: seq<nat>, exc: seq<Value>)
    returns (n: nat)
    requires var r := LowerBlock(b, at, before, op); Placed(p, at, r.code) && Extends(r.names, names)
    requires Holds(p, names, env, f) && LastOk(p, f, op, last)
    ensures var r := LowerBlock(b, at, before, op);
            Ran(p, names, RunN(p, At(at, f, handlers, exc), n), ExecBlock(p.host, fuel, env, b, last), fuel, n, at + |r.code|, f, at, r.last, handlers, exc)
    decreases fuel, b, 0
  {
    hide Holds, Extends, Placed, ResultsKept, RunN, LowerStmt, Exec, Landed, LastOk, Ran, Grows;
    var start := At(at, f, handlers, exc);
    match b {
      case End =>
        n := 0;
        EmptyRan(p, names, fuel, env, at, op, last, f, handlers, exc);
      case Then(s, rest) =>
        var x := LowerStmt(s, at, before);
        var mid := at + |x.code|;
        var y := LowerBlock(rest, mid, x.names, x.last);
        PlacedParts(p, at, x.code, y.code);
        BlockNames(rest, mid, x.names, x.last);
        ExtendsTwice(x.names, y.names, names);
        n := StmtSim(p, names, fuel, env, s, at, before, f, handlers, exc);
        var o := Exec(p.host, fuel, env, s);
        if o.Done? {
          var c := RunN(p, start, n);
          DoneFacts(p, names, c, o, fuel, n, mid, f, at, x.last, handlers, exc);
          var k := BlockSim(p, names, fuel, o.env, rest, mid, x.names, x.last, o.last, FrameOf(c), handlers, exc);
          Continue(p, names, start, n, k, ExecBlock(p.host, fuel, o.env, rest, o.last), fuel, mid, mid + |y.code|, f, at, y.last, handlers, exc);
          n := n + k;
        } else {
          Widen(p, names, RunN(p, start, n), o, fuel, n, mid, mid + |y.code|, f, at, x.last, y.last, handlers, exc);
        }
    }
  }

  lemma EmptyRan(p: Program, names: Names, fuel: nat, env: Env, at: nat, op: Option<Op>, last: Option<Value>, f: seq<Value>, handlers: seq<nat>, exc: seq<Value>)
    requires Holds(p, names, env, f) && LastOk(p, f, op, last)
    ensures Ran(p, names, RunN(p, At(at, f, handlers, exc), 0), Done(env, last), fuel, 0, at, f, at, op, handlers, exc)
  {
  }

  lemma DoneFacts(p: Program, names: Names, c: Conf, o: Outcome, fuel: nat, n: nat, end: nat,
                  f: seq<Value>, lo: nat, op: Option<Op>, handlers: seq<nat>, exc: seq<Value>)
    requires Ran(p, names, c, o, fuel, n, end, f, lo, op, handlers, exc) && o.Done?
    ensures c == At(end, FrameOf(c), handlers, exc) && Holds(p, names, o.env, FrameOf(c)) && ResultsKept(p, f, FrameOf(c), lo, end)
    ensures LastOk(p, FrameOf(c), op, o.last)
  {
    hide Holds, ResultsKept;
  }

  lemma NoLast(p: Program, f: seq<Value>)
    ensures LastOk(p, f, None, None)
  {
  }

  lemma IfPlaced(p: Program, at: nat, c: LoweredExpr, t: Lowered, f: Lowered)
    requires Placed(p, at, LowerIf(c, at, t, f))
    ensures var thenStart := at + |c.code| + 1; var elseStart := thenStart + |t.code| + 1;
            && Placed(p, at, c.code + [GotoIfNot(c.op, elseStart)]) && Placed(p, thenStart, t.code)
            && Placed(p, elseStart - 1, [Goto(elseStart + |f.code|)]) && Placed(p, elseStart, f.code)
            && |LowerIf(c, at, t, f)| == elseStart + |f.code| - at
  {
    hide Placed;
    var elseStart := at + |c.code| + 1 + |t.code| + 1;
    var head := c.code + [GotoIfNot(c.op, elseStart)];
    var jump := [Goto(elseStart + |f.code|)];
    PlacedParts(p, at, head + t.code + jump, f.code);
    PlacedParts(p, at, head + t.code, jump);
    PlacedParts(p, at, head, t.code);
  }

  lemma IfSim(p: Program, names: Names, fuel: nat, env: Env, e: Expr, t: Block, f: Block, at: nat, before: Names, fr: seq<Value>, handlers: seq<nat>, exc: seq<Value>)
    returns (n: nat)
    requires var r := LowerStmt(If(e, t, f), at, before); Placed(p, at, r.code) && Extends(r.names, names)
    requires Holds(p, names, env, fr)
    ensures var r := LowerStmt(If(e, t, f), at, before);
            Ran(p, names, RunN(p, At(at, fr, handlers, exc), n), Exec(p.host, fuel, env, If(e, t, f)), fuel, n, at + |r.code|, fr, at, r.last, handlers, exc)
    decreases fuel, If(e, t, f), 0
  {
    hide Holds, Extends, Placed, ResultsKept, RunN, LowerExpr, Eval, LowerBlock, LowerIf, ExecBlock, Landed, LastOk, Ran, Grows;
    var a := LowerExpr(e, at, before);
    var thenStart := at + |a.code| + 1;
    var x := LowerBlock(t, thenStart, a.names, None);
    var elseStart := thenStart + |x.code| + 1;
    var y := LowerBlock(f, elseStart, x.names, None);
    var end := elseStart + |y.code|;
    var start := At(at, fr, handlers, exc);
    IfPlaced(p, at, a, x, y);
    BlockNames(t, thenStart, a.names, None);
    BlockNames(f, elseStart, x.names, None);
    ExtendsTwice(x.names, y.names, names);
    ExtendsTwice(a.names, x.names, names);
    n := CondSim(p, names, env, e, at, before, elseStart, fr, handlers, exc);
    var c := RunN(p, start, n);
    NoLast(p, FrameOf(c));
    match Eval(p.host, env, e) {
      case Err(v) =>
        RanRaised(p, names, c, env, v, fuel, n, end, fr, at, thenStart, None, handlers, exc);
      case Ok(v) =>
        if p.host.truth(v) {
          PassedIsAt(c, thenStart, handlers, exc);
          var k := BlockSim(p, names, fuel, env, t, thenStart, a.names, None, None, FrameOf(c), handlers, exc);
          var o := ExecBlock(p.host, fuel, env, t, None);
          Continue(p, names, start, n, k, o, fuel, thenStart, elseStart - 1, fr, at, x.last, handlers, exc);
          n := n + k;
          if o.Done? {
            JumpOut(p, names, start, n, o.env, o.last, fuel, elseStart - 1, end, fr, at, x.last, handlers, exc);
            n := n + 1;
          } else {
            Widen(p, names, RunN(p, start, n), o, fuel, n, elseStart - 1, end, fr, at, x.last, None, handlers, exc);
          }
        } else {
          PassedIsAt(c, elseStart, handlers, exc);
          KeptWider(p, fr, FrameOf(c), at, thenStart, at, elseStart);
          var k := BlockSim(p, names, fuel, env, f, elseStart, x.names, None, None, FrameOf(c), handlers, exc);
          var o := ExecBlock(p.host, fuel, env, f, None);
          Continue(p, names, start, n, k, o, fuel, elseStart, end, fr, at, y.last, handlers, exc);
          n := n + k;
          Quieten(p, names, RunN(p, start, n), o, fuel, n, end, fr, at, y.last, handlers, exc);
        }
    }
  }

  // --- loops ------------------------------------------------------------------------------------------

  lemma WhilePlaced(p: Program, at: nat, c: LoweredExpr, body: Lowered)
    requires Placed(p, at, LowerWhile(c, at, body))
    ensures var bodyStart := at + |c.code| + 1; var end := bodyStart + |body.code| + 1;
            && Placed(p, at, c.code + [GotoIfNot(c.op, end)]) && Placed(p, bodyStart, body.code)
            && Placed(p, end - 1, [Goto(at)]) && |LowerWhile(c, at, body)| == end - at
  {
    hide Placed;
    var head := c.code + [GotoIfNot(c.op, at + |c.code| + 1 + |body.code| + 1)];
    PlacedParts(p, at, head + body.code, [Goto(at)]);
    PlacedParts(p, at, head, body.code);
  }

  lemma WhileStmtSim(p: Program, names: Names, fuel: nat, env: Env, e: Expr, body: Block, at: nat, before: Names, f: seq<Value>, handlers: seq<nat>, exc: seq<Value>)
    returns (n: nat)
    requires var r := LowerStmt(While(e, body), at, before); Placed(p, at, r.code) && Extends(r.names, names)
    requires Holds(p, names, env, f)
    ensures var r := LowerStmt(While(e, body), at, before);
            Ran(p, names, RunN(p, At(at, f, handlers, exc), n), Exec(p.host, fuel, env, While(e, body)), fuel, n, at + |r.code|, f, at, r.last, handlers, exc)
    decreases fuel, While(e, body), 0
  {
    hide Holds, Extends, Placed, RunN, LowerExpr, LowerBlock, LowerWhile, ExecWhile, Ran;
    n := WhileSim(p, names, fuel, env, e, body, at, before, f, handlers, exc);
  }

  /** Back at the head of the loop after one more repetition. */
  lemma LoopBack(p: Program, names: Names, start: Conf, n: nat, o: Outcome, fuel: nat, at: nat, end: nat,
                 f: seq<Value>, op: Option<Op>, handlers: seq<nat>, exc: seq<Value>)
    requires 0 < end && Ran(p, names, RunN(p, start, n), o, fuel, n, end - 1, f, at, op, handlers, exc) && o.Done?
    requires Placed(p, end - 1, [Goto(at)])
    ensures var c := RunN(p, start, n + 1);
            c == At(at, FrameOf(c), handlers, exc) && Holds(p, names, o.env, FrameOf(c)) && ResultsKept(p, f, FrameOf(c), at, end)
  {
    hide Holds, RunN, Placed, LastOk;
    PlacedInstr(p, end - 1, Goto(at));
    OneStep(p, start, n);
    KeptWider(p, f, FrameOf(RunN(p, start, n)), at, end - 1, at, end);
  }

  lemma {:induction false} WhileSim(p: Program, names: Names, fuel: nat, env: Env, e: Expr, body: Block, at: nat, before: Names, f: seq<Value>, handlers: seq<nat>, exc: seq<Value>)
    returns (n: nat)
    requires var a := LowerExpr(e, at, before);
             var x := LowerBlock(body, at + |a.code| + 1, a.names, None);
             Placed(p, at, LowerWhile(a, at, x)) && Extends(x.names, names)
    requires Holds(p, names, env, f)
    ensures var a := LowerExpr(e, at, before);
            var x := LowerBlock(body, at + |a.code| + 1, a.names, None);
            Ran(p, names, RunN(p, At(at, f, handlers, exc), n), ExecWhile(p.host, fuel, env, e, body), fuel, n,
                at + |LowerWhile(a, at, x)|, f, at, None, handlers, exc)
    decreases fuel, body, 1
  {
    hide Holds, Extends, Placed, ResultsKept, RunN, LowerExpr, Eval, LowerBlock, LowerWhile, ExecBlock, Landed, LastOk, Ran, Grows;
    var a := LowerExpr(e, at, before);
    var bodyStart := at + |a.code| + 1;
    var x := LowerBlock(body, bodyStart, a.names, None);
    var end := bodyStart + |x.code| + 1;
    var start := At(at, f, handlers, exc);
    WhilePlaced(p, at, a, x);
    if fuel == 0 {
      n := 0;
      RanOut(p, names, start, end, f, at, handlers, exc);
      return;
    }
    BlockNames(body, bodyStart, a.names, None);
    ExtendsTwice(a.names, x.names, names);
    n := CondSim(p, names, env, e, at, before, end, f, handlers, exc);
    var c := RunN(p, start, n);
    NoLast(p, FrameOf(c));
    match Eval(p.host, env, e) {
      case Err(v) =>
        RanRaised(p, names, c, env, v, fuel, n, end, f, at, bodyStart, None, handlers, exc);
      case Ok(v) =>
        if !p.host.truth(v) {
          RanDone(p, names, c, env, fuel, n, end, f, at, bodyStart, handlers, exc);
        } else {
          PassedIsAt(c, bodyStart, handlers, exc);
          var k := BlockSim(p, names, fuel, env, body, bodyStart, a.names, None, None, FrameOf(c), handlers, exc);
          var o := ExecBlock(p.host, fuel, env, body, None);
          Continue(p, names, start, n, k, o, fuel, bodyStart, end - 1, f, at, x.last, handlers, exc);
          n := n + k;
          if o.Done? {
            LoopBack(p, names, start, n, o, fuel, at, end, f, x.last, handlers, exc);
            var c' := RunN(p, start, n + 1);
            var j := WhileSim(p, names, fuel - 1, o.env, e, body, at, before, FrameOf(c'), handlers, exc);
            ContinueWithin(p, names, start, n + 1, j, ExecWhile(p.host, fuel - 1, o.env, e, body), fuel - 1, fuel, end, f, at, None, handlers, exc);
            n := n + 1 + j;
          } else {
            Widen(p, names, RunN(p, start, n), o, fuel, n, end - 1, end, f, at, x.last, None, handlers, exc);
          }
        }
    }
  }

  lemma RanOut(p: Program, names: Names, c: Conf, end: nat, f: seq<Value>, lo: nat, handlers: seq<nat>, exc: seq<Value>)
    requires c.Running?
    ensures Ran(p, names, RunN(p, c, 0), Timeout, 0, 0, end, f, lo, None, handlers, exc)
  {
  }

  lemma RanDone(p: Program, names: Names, c: Conf, env: Env, fuel: nat, n: nat, end: nat, f: seq<Value>, lo: nat, hi: nat, handlers: seq<nat>, exc: seq<Value>)
    requires Passed(c, end, handlers, exc) && Holds(p, names, env, FrameOf(c)) && ResultsKept(p, f, FrameOf(c), lo, hi) && hi <= end
    ensures Ran(p, names, c, Done(env, None), fuel, n, end, f, lo, None, handlers, exc)
  {
    hide Holds;
  }

  // --- exceptions --------------------------------------------------------------------------------------

  /** Entering a protected region: its handler is innermost and the depth of the exception stack is kept. */
  lemma EnterStep(p: Program, names: Names, env: Env, at: nat, target: nat, f: seq<Value>, handlers: seq<nat>, exc: seq<Value>)
    requires Holds(p, names, env, f) && Placed(p, at, [Enter(target)])
    ensures var c := RunN(p, At(at, f, handlers, exc), 1);
            && c == At(at + 1, FrameOf(c), handlers + [target], exc) && Holds(p, names, env, FrameOf(c))
            && ResultsKept(p, f, FrameOf(c), at, at + 1) && Read(p, FrameOf(c), Ssa(at)) == Int(|exc|)
  {
    PlacedInstr(p, at, Enter(target));
    RunOne(p, At(at, f, handlers, exc));
    ResultWritten(p, names, env, f, at, Int(|exc|));
  }

  /** Leaving it on normal completion. */
  lemma LeaveStep(p: Program, start: Conf, n: nat, at: nat, target: nat, f: seq<Value>, handlers: seq<nat>, exc: seq<Value>)
    requires RunN(p, start, n) == At(at, f, handlers + [target], exc) && Placed(p, at, [Leave(1)])
    ensures RunN(p, start, n + 1) == At(at + 1, f, handlers, exc)
  {
    hide RunN;
    PlacedInstr(p, at, Leave(1));
    OneStep(p, start, n);
    assert (handlers + [target])[..|handlers|] == handlers;
  }

  /** The depth stored on entry is still there once later code has run. */
  lemma DepthKept(p: Program, f: seq<Value>, g: seq<Value>, at: nat, lo: nat, hi: nat)
    requires ResultsKept(p, f, g, lo, hi) && at < lo
    ensures Read(p, g, Ssa(at)) == Read(p, f, Ssa(at))
  {
  }

  /** What is known when an exception reaches the handler of the region just entered. */
  lemma CaughtFacts(p: Program, names: Names, c: Conf, o: Outcome, fuel: nat, n: nat, end: nat,
                    f: seq<Value>, lo: nat, op: Option<Op>, handlers: seq<nat>, target: nat, exc: seq<Value>)
    returns (exc': seq<Value>)
    requires Ran(p, names, c, o, fuel, n, end, f, lo, op, handlers + [target], exc) && o.Raised?
    ensures c == At(target, FrameOf(c), handlers, exc') && Holds(p, names, o.env, FrameOf(c)) && ResultsKept(p, f, FrameOf(c), lo, end)
    ensures |exc| < |exc'| && exc'[..|exc|] == exc && exc'[|exc'| - 1] == o.exc
  {
    hide Holds, ResultsKept;
    exc' := c.st.exc;
    assert (handlers + [target])[..|handlers|] == handlers;
  }

  /** Binding the exception. */
  lemma BindSim(p: Program, names: Names, env: Env, x: Option<string>, e: Value, at: nat, before: Names, f: seq<Value>, handlers: seq<nat>, exc: seq<Value>)
    returns (n: nat)
    requires var r := LowerBind(x, at, before); Placed(p, at, r.code) && Extends(r.names, names)
    requires Holds(p, names, env, f) && exc != [] && exc[|exc| - 1] == e
    ensures var r := LowerBind(x, at, before);
            var c := RunN(p, At(at, f, handlers, exc), n);
            && c == At(at + |r.code|, FrameOf(c), handlers, exc) && ResultsKept(p, f, FrameOf(c), at, at + |r.code|)
            && Holds(p, names, if x.Some? then env[x.value := e] else env, FrameOf(c))
  {
    hide Holds, ResultsKept, Extends, Placed, RunN;
    if x == None {
      n := 0;
      NothingRan(p, f, at);
      RunZero(p, At(at, f, handlers, exc));
    } else {
      n := 2;
      var k := SlotOf(before, x.value);
      assert [Caught, Store(k, Ssa(at))] == [Caught] + [Store(k, Ssa(at))];
      PlacedParts(p, at, [Caught], [Store(k, Ssa(at))]);
      AssignedSlot(before, x.value, names);
      var c0 := At(at, f, handlers, exc);
      CaughtStep(p, names, env, at, f, handlers, exc);
      var c1 := StepConf(p, c0);
      RunOne(p, c0);
      OneStep(p, c0, 1);
      StoreStep(p, names, env, x.value, Ssa(at), at + 1, FrameOf(c1), handlers, exc);
      PassedIsAt(StepConf(p, c1), at + 2, handlers, exc);
      KeptTwice(p, f, FrameOf(c1), FrameOf(StepConf(p, c1)), at, at + 1, at + 2);
    }
  }

  lemma RunZero(p: Program, c: Conf)
    ensures RunN(p, c, 0) == c
  {
  }

  lemma CaughtStep(p: Program, names: Names, env: Env, at: nat, f: seq<Value>, handlers: seq<nat>, exc: seq<Value>)
    requires Holds(p, names, env, f) && Placed(p, at, [Caught]) && exc != []
    ensures var c := StepConf(p, At(at, f, handlers, exc));
            && c == At(at + 1, FrameOf(c), handlers, exc) && Holds(p, names, env, FrameOf(c))
            && ResultsKept(p, f, FrameOf(c), at, at + 1) && Read(p, FrameOf(c), Ssa(at)) == exc[|exc| - 1]
  {
    PlacedInstr(p, at, Caught);
    ResultWritten(p, names, env, f, at, exc[|exc| - 1]);
  }

  /** Leaving a handler retires its exception and whatever was stacked on it. */
  lemma PopStep(p: Program, start: Conf, n: nat, at: nat, enter: nat, f: seq<Value>, handlers: seq<nat>, exc: seq<Value>, exc': seq<Value>)
    requires RunN(p, start, n) == At(at, f, handlers, exc') && Placed(p, at, [PopException(Ssa(enter))])
    requires Read(p, f, Ssa(enter)) == Int(|exc|) && |exc| <= |exc'| && exc'[..|exc|] == exc
    ensures RunN(p, start, n + 1) == At(at + 1, f, handlers, exc)
  {
    hide RunN;
    PlacedInstr(p, at, PopException(Ssa(enter)));
    OneStep(p, start, n);
  }

  lemma TryPlaced(p: Program, at: nat, body: Lowered, bind: Lowered, handler: Lowered)
    requires Placed(p, at, LowerTry(at, body, bind, handler))
    ensures var leave := at + 1 + |body.code|; var catchStart := leave + 2;
            var handlerStart := catchStart + |bind.code|; var end := handlerStart + |handler.code| + 1;
            && Placed(p, at, [Enter(catchStart)]) && Placed(p, at + 1, body.code) && Placed(p, leave, [Leave(1)])
            && Placed(p, leave + 1, [Goto(end)]) && Placed(p, catchStart, bind.code) && Placed(p, handlerStart, handler.code)
            && Placed(p, end - 1, [PopException(Ssa(at))]) && |LowerTry(at, body, bind, handler)| == end - at
  {
    hide Placed;
    var catchStart := at + 1 + |body.code| + 2;
    var end := catchStart + |bind.code| + |handler.code| + 1;
    var enter, leave := [Enter(catchStart)], [Leave(1), Goto(end)];
    PlacedParts(p, at, enter + body.code + leave + bind.code + handler.code, [PopException(Ssa(at))]);
    PlacedParts(p, at, enter + body.code + leave + bind.code, handler.code);
    PlacedParts(p, at, enter + body.code + leave, bind.code);
    PlacedParts(p, at, enter + body.code, leave);
    PlacedParts(p, at, enter, body.code);
    assert leave == [Leave(1)] + [Goto(end)];
    PlacedParts(p, at + 1 + |body.code|, [Leave(1)], [Goto(end)]);
  }

  /** The handler, from the point where the exception has reached it. */
  lemma HandlerSim(p: Program, names: Names, fuel: nat, env: Env, x: Option<string>, e: Value, handler: Block, at: nat, catchStart: nat, before: Names,
                   f: seq<Value>, handlers: seq<nat>, exc: seq<Value>, exc': seq<Value>)
    returns (n: nat)
    requires var b := LowerBind(x, catchStart, before);
             var y := LowerBlock(handler, catchStart + |b.code|, b.names, None);
             && Placed(p, catchStart, b.code) && Placed(p, catchStart + |b.code|, y.code)
             && Placed(p, catchStart + |b.code| + |y.code|, [PopException(Ssa(at))]) && Extends(y.names, names)
    requires Holds(p, names, env, f) && at < catchStart && Read(p, f, Ssa(at)) == Int(|exc|)
    requires |exc| < |exc'| && exc'[..|exc|] == exc && exc'[|exc'| - 1] == e
    ensures var b := LowerBind(x, catchStart, before);
            var y := LowerBlock(handler, catchStart + |b.code|, b.names, None);
            Ran(p, names, RunN(p, At(catchStart, f, handlers, exc'), n),
                Quiet(ExecBlock(p.host, fuel, if x.Some? then env[x.value := e] else env, handler, None)),
                fuel, n, catchStart + |b.code| + |y.code| + 1, f, catchStart, None, handlers, exc)
    decreases fuel, handler, 1
  {
    hide Holds, Extends, Placed, ResultsKept, RunN, LowerBind, LowerBlock, ExecBlock, Landed, LastOk, Ran, Grows;
    var b := LowerBind(x, catchStart, before);
    var handlerStart := catchStart + |b.code|;
    var y := LowerBlock(handler, handlerStart, b.names, None);
    var pop := handlerStart + |y.code|;
    var start := At(catchStart, f, handlers, exc');
    BlockNames(handler, handlerStart, b.names, None);
    ExtendsTwice(b.names, y.names, names);
    n := BindSim(p, names, env, x, e, catchStart, before, f, handlers, exc');
    var bound := if x.Some? then env[x.value := e] else env;
    var c := RunN(p, start, n);
    NoLast(p, FrameOf(c));
    var k := BlockSim(p, names, fuel, bound, handler, handlerStart, b.names, None, None, FrameOf(c), handlers, exc');
    var o := ExecBlock(p.host, fuel, bound, handler, None);
    Continue(p, names, start, n, k, o, fuel, handlerStart, pop, f, catchStart, y.last, handlers, exc');
    n := n + k;
    var c' := RunN(p, start, n);
    if o.Done? {
      DoneFacts(p, names, c', o, fuel, n, pop, f, catchStart, y.last, handlers, exc');
      DepthKept(p, f, FrameOf(c'), at, catchStart, pop);
      PopStep(p, start, n, pop, at, FrameOf(c'), handlers, exc, exc');
      n := n + 1;
      RanDone(p, names, RunN(p, start, n), o.env, fuel, n, pop + 1, f, catchStart, pop, handlers, exc);
    } else {
      Widen(p, names, c', o, fuel, n, pop, pop + 1, f, catchStart, y.last, None, handlers, exc');
      Shallower(p, names, c', o, fuel, n, pop + 1, f, catchStart, handlers, exc, exc');
    }
  }

  /** Exceptions and timeouts do not care how deep the exception stack was. */
  lemma Shallower(p: Program, names: Names, c: Conf, o: Outcome, fuel: nat, n: nat, end: nat, f: seq<Value>, lo: nat, handlers: seq<nat>, exc: seq<Value>, exc': seq<Value>)
    requires Ran(p, names, c, o, fuel, n, end, f, lo, None, handlers, exc') && !o.Done?
    requires |exc| <= |exc'| && exc'[..|exc|] == exc
    ensures Ran(p, names, c, o, fuel, n, end, f, lo, None, handlers, exc)
  {
    hide Holds, ResultsKept, Landed;
    if o.Raised? {
      LandedDeeper(c, handlers, exc, exc', o.exc);
    }
  }

  /** A timeout inside a protected region. */
  lemma OutOfFuel(p: Program, names: Names, c: Conf, o: Outcome, fuel: nat, n: nat, end: nat, end': nat, f: seq<Value>, lo: nat, lo': nat,
                  f': seq<Value>, op: Option<Op>, handlers: seq<nat>, handlers': seq<nat>, exc: seq<Value>)
    requires Ran(p, names, c, o, fuel, n, end, f, lo, op, handlers, exc) && o.Timeout?
    ensures Ran(p, names, c, o, fuel, n, end', f', lo', None, handlers', exc)
  {
  }

  lemma TrySim(p: Program, names: Names, fuel: nat, env: Env, body: Block, v: Option<string>, handler: Block, at: nat, before: Names, f: seq<Value>, handlers: seq<nat>, exc: seq<Value>)
    returns (n: nat)
    requires var r := LowerStmt(Try(body, v, handler), at, before); Placed(p, at, r.code) && Extends(r.names, names)
    requires Holds(p, names, env, f)
    ensures var r := LowerStmt(Try(body, v, handler), at, before);
            Ran(p, names, RunN(p, At(at, f, handlers, exc), n), Exec(p.host, fuel, env, Try(body, v, handler)), fuel, n, at + |r.code|, f, at, r.last, handlers, exc)
    decreases fuel, Try(body, v, handler), 0
  {
    hide Holds, Extends, Placed, ResultsKept, RunN, LowerBind, LowerBlock, LowerTry, ExecBlock, Landed, LastOk, Ran, Grows;
    var x := LowerBlock(body, at + 1, before, None);
    var leave := at + 1 + |x.code|;
    var catchStart := leave + 2;
    var b := LowerBind(v, catchStart, x.names);
    var y := LowerBlock(handler, catchStart + |b.code|, b.names, None);
    var end := catchStart + |b.code| + |y.code| + 1;
    var start := At(at, f, handlers, exc);
    TryPlaced(p, at, x, b, y);
    BindNames(v, catchStart, x.names);
    BlockNames(handler, catchStart + |b.code|, b.names, None);
    ExtendsTwice(b.names, y.names, names);
    ExtendsTwice(x.names, b.names, names);
    EnterStep(p, names, env, at, catchStart, f, handlers, exc);
    var c := RunN(p, start, 1);
    var f1 := FrameOf(c);
    NoLast(p, f1);
    var k := BlockSim(p, names, fuel, env, body, at + 1, before, None, None, f1, handlers + [catchStart], exc);
    var o := ExecBlock(p.host, fuel, env, body, None);
    RunAdd(p, start, 1, k);
    n := 1 + k;
    var c' := RunN(p, start, n);
    match o {
      case Done(_, _) =>
        DoneFacts(p, names, c', o, fuel, k, leave, f1, at + 1, x.last, handlers + [catchStart], exc);
        KeptTwice(p, f, f1, FrameOf(c'), at, at + 1, leave);
        LeaveStep(p, start, n, leave, catchStart, FrameOf(c'), handlers, exc);
        n := n + 1;
        KeptWider(p, f, FrameOf(c'), at, leave, at, leave + 1);
        RanDone(p, names, RunN(p, start, n), o.env, fuel, n, leave + 1, f, at, leave + 1, handlers, exc);
        JumpOut(p, names, start, n, o.env, None, fuel, leave + 1, end, f, at, None, handlers, exc);
        n := n + 1;
      case Raised(_, e) =>
        var exc' := CaughtFacts(p, names, c', o, fuel, k, leave, f1, at + 1, x.last, handlers, catchStart, exc);
        DepthKept(p, f1, FrameOf(c'), at, at + 1, leave);
        KeptTwice(p, f, f1, FrameOf(c'), at, at + 1, leave);
        KeptWider(p, f, FrameOf(c'), at, leave, at, catchStart);
        var j := HandlerSim(p, names, fuel, o.env, v, e, handler, at, catchStart, x.names, FrameOf(c'), handlers, exc, exc');
        var bound := if v.Some? then o.env[v.value := e] else o.env;
        Continue(p, names, start, n, j, Quiet(ExecBlock(p.host, fuel, bound, handler, None)), fuel, catchStart, end, f, at, None, handlers, exc);
        n := n + j;
      case Timeout =>
        OutOfFuel(p, names, c', o, fuel, k, leave, end, f1, at + 1, at, f, x.last, handlers + [catchStart], handlers, exc);
        MoreSteps(p, names, c', fuel, k, n, end, f, at, handlers, exc);
    }
  }

  lemma MoreSteps(p: Program, names: Names, c: Conf, fuel: nat, k: nat, n: nat, end: nat, f: seq<Value>, lo: nat, handlers: seq<nat>, exc: seq<Value>)
    requires Ran(p, names, c, Timeout, fuel, k, end, f, lo, None, handlers, exc) && k <= n
    ensures Ran(p, names, c, Timeout, fuel, n, end, f, lo, None, handlers, exc)
  {
  }

  // --- cleanup on both paths -------------------------------------------------------------------------------

  lemma FinallyPlaced(p: Program, at: nat, body: Lowered, normal: Lowered, raised: Lowered)
    requires Placed(p, at, LowerFinally(at, body, normal, raised))
    ensures var leave := at + 1 + |body.code|; var jump := leave + 1 + |normal.code|;
            var catchStart := jump + 1; var end := catchStart + |raised.code| + 1;
            && Placed(p, at, [Enter(catchStart)]) && Placed(p, at + 1, body.code) && Placed(p, leave, [Leave(1)])
            && Placed(p, leave + 1, normal.code) && Placed(p, jump, [Goto(end)]) && Placed(p, catchStart, raised.code)
            && Placed(p, end - 1, [Rethrow]) && |LowerFinally(at, body, normal, raised)| == end - at
  {
    hide Placed;
    var catchStart := at + 1 + |body.code| + 1 + |normal.code| + 1;
    var end := catchStart + |raised.code| + 1;
    var enter, leave, jump := [Enter(catchStart)], [Leave(1)], [Goto(end)];
    PlacedParts(p, at, enter + body.code + leave + normal.code + jump + raised.code, [Rethrow]);
    PlacedParts(p, at, enter + body.code + leave + normal.code + jump, raised.code);
    PlacedParts(p, at, enter + body.code + leave + normal.code, jump);
    PlacedParts(p, at, enter + body.code + leave, normal.code);
    PlacedParts(p, at, enter + body.code, leave);
    PlacedParts(p, at, enter, body.code);
  }

  /** After the cleanup the exception it interrupted is raised again: it is on top of the stack still. */
  lemma RethrowStep(p: Program, start: Conf, n: nat, at: nat, f: seq<Value>, handlers: seq<nat>, exc: seq<Value>, exc': seq<Value>, e: Value)
    requires RunN(p, start, n) == At(at, f, handlers, exc') && Placed(p, at, [Rethrow])
    requires |exc| < |exc'| && exc'[..|exc|] == exc && exc'[|exc'| - 1] == e
    ensures var c := RunN(p, start, n + 1); Landed(c, handlers, exc, e) && FrameOf(c) == f
  {
    hide RunN;
    PlacedInstr(p, at, Rethrow);
    OneStep(p, start, n);
  }

  /** The cleanup on the exception path. */
  lemma CleanupSim(p: Program, names: Names, fuel: nat, env: Env, e: Value, cleanup: Block, catchStart: nat, before: Names,
                   f: seq<Value>, handlers: seq<nat>, exc: seq<Value>, exc': seq<Value>)
    returns (n: nat)
    requires var z := LowerBlock(cleanup, catchStart, before, None);
             Placed(p, catchStart, z.code) && Placed(p, catchStart + |z.code|, [Rethrow]) && Extends(z.names, names)
    requires Holds(p, names, env, f)
    requires |exc| < |exc'| && exc'[..|exc|] == exc && exc'[|exc'| - 1] == e
    ensures var z := LowerBlock(cleanup, catchStart, before, None);
            var o := Quiet(ExecBlock(p.host, fuel, env, cleanup, None));
            Ran(p, names, RunN(p, At(catchStart, f, handlers, exc'), n), if o.Done? then Raised(o.env, e) else o,
                fuel, n, catchStart + |z.code| + 1, f, catchStart, None, handlers, exc)
    decreases fuel, cleanup, 1
  {
    hide Holds, Extends, Placed, ResultsKept, RunN, LowerBlock, ExecBlock, Landed, LastOk, Ran;
    var z := LowerBlock(cleanup, catchStart, before, None);
    var last := catchStart + |z.code|;
    var start := At(catchStart, f, handlers, exc');
    NoLast(p, f);
    n := BlockSim(p, names, fuel, env, cleanup, catchStart, before, None, None, f, handlers, exc');
    var o := ExecBlock(p.host, fuel, env, cleanup, None);
    var c := RunN(p, start, n);
    if o.Done? {
      DoneFacts(p, names, c, o, fuel, n, last, f, catchStart, z.last, handlers, exc');
      RethrowStep(p, start, n, last, FrameOf(c), handlers, exc, exc', e);
      n := n + 1;
      RanRaised(p, names, RunN(p, start, n), o.env, e, fuel, n, last + 1, f, catchStart, last, None, handlers, exc);
    } else {
      Widen(p, names, c, o, fuel, n, last, last + 1, f, catchStart, z.last, None, handlers, exc');
      Shallower(p, names, c, o, fuel, n, last + 1, f, catchStart, handlers, exc, exc');
    }
  }

  lemma FinallySim(p: Program, names: Names, fuel: nat, env: Env, body: Block, cleanup: Block, at: nat, before: Names, f: seq<Value>, handlers: seq<nat>, exc: seq<Value>)
    returns (n: nat)
    requires var r := LowerStmt(Finally(body, cleanup), at, before); Placed(p, at, r.code) && Extends(r.names, names)
    requires Holds(p, names, env, f)
    ensures var r := LowerStmt(Finally(body, cleanup), at, before);
            Ran(p, names, RunN(p, At(at, f, handlers, exc), n), Exec(p.host, fuel, env, Finally(body, cleanup)), fuel, n, at + |r.code|, f, at, r.last, handlers, exc)
    decreases fuel, Finally(body, cleanup), 0
  {
    hide Holds, Extends, Placed, ResultsKept, RunN, LowerBlock, LowerFinally, ExecBlock, Landed, LastOk, Ran, Grows;
    var x := LowerBlock(body, at + 1, before, None);
    var leave := at + 1 + |x.code|;
    var y := LowerBlock(cleanup, leave + 1, x.names, None);
    var jump := leave + 1 + |y.code|;
    var catchStart := jump + 1;
    var z := LowerBlock(cleanup, catchStart, y.names, None);
    var end := catchStart + |z.code| + 1;
    var start := At(at, f, handlers, exc);
    FinallyPlaced(p, at, x, y, z);
    BlockNames(cleanup, leave + 1, x.names, None);
    BlockNames(cleanup, catchStart, y.names, None);
    ExtendsTwice(y.names, z.names, names);
    ExtendsTwice(x.names, y.names, names);
    EnterStep(p, names, env, at, catchStart, f, handlers, exc);
    var c := RunN(p, start, 1);
    var f1 := FrameOf(c);
    NoLast(p, f1);
    var k := BlockSim(p, names, fuel, env, body, at + 1, before, None, None, f1, handlers + [catchStart], exc);
    var o := ExecBlock(p.host, fuel, env, body, None);
    RunAdd(p, start, 1, k);
    n := 1 + k;
    var c' := RunN(p, start, n);
    match o {
      case Done(_, _) =>
        DoneFacts(p, names, c', o, fuel, k, leave, f1, at + 1, x.last, handlers + [catchStart], exc);
        KeptTwice(p, f, f1, FrameOf(c'), at, at + 1, leave);
        LeaveStep(p, start, n, leave, catchStart, FrameOf(c'), handlers, exc);
        n := n + 1;
        KeptWider(p, f, FrameOf(c'), at, leave, at, leave + 1);
        NoLast(p, FrameOf(c'));
        var j := BlockSim(p, names, fuel, o.env, cleanup, leave + 1, x.names, None, None, FrameOf(c'), handlers, exc);
        var q := ExecBlock(p.host, fuel, o.env, cleanup, None);
        Continue(p, names, start, n, j, q, fuel, leave + 1, jump, f, at, y.last, handlers, exc);
        n := n + j;
        if q.Done? {
          JumpOut(p, names, start, n, q.env, q.last, fuel, jump, end, f, at, y.last, handlers, exc);
          n := n + 1;
        } else {
          Widen(p, names, RunN(p, start, n), q, fuel, n, jump, end, f, at, y.last, None, handlers, exc);
        }
      case Raised(_, e) =>
        var exc' := CaughtFacts(p, names, c', o, fuel, k, leave, f1, at + 1, x.last, handlers, catchStart, exc);
        KeptTwice(p, f, f1, FrameOf(c'), at, at + 1, leave);
        KeptWider(p, f, FrameOf(c'), at, leave, at, catchStart);
        var j := CleanupSim(p, names, fuel, o.env, e, cleanup, catchStart, y.names, FrameOf(c'), handlers, exc, exc');
        var q := Quiet(ExecBlock(p.host, fuel, o.env, cleanup, None));
        Continue(p, names, start, n, j, if q.Done? then Raised(q.env, e) else q, fuel, catchStart, end, f, at, None, handlers, exc);
        n := n + j;
      case Timeout =>
        OutOfFuel(p, names, c', o, fuel, k, leave, end, f1, at + 1, at, f, x.last, handlers + [catchStart], handlers, exc);
        MoreSteps(p, names, c', fuel, k, n, end, f, at, handlers, exc);
    }
  }

  lemma {:induction false} StmtSim(p: Program, names: Names, fuel: nat, env: Env, s: Stmt, at: nat, before: Names, f: seq<Value>, handlers: seq<nat>, exc: seq<Value>)
    returns (n: nat)
    requires var r := LowerStmt(s, at, before); Placed(p, at, r.code) && Extends(r.names, names)
    requires Holds(p, names, env, f)
    ensures var r := LowerStmt(s, at, before);
            Ran(p, names, RunN(p, At(at, f, handlers, exc), n), Exec(p.host, fuel, env, s), fuel, n, at + |r.code|, f, at, r.last, handlers, exc)
    decreases fuel, s, 1
  {
    hide *;
    match s {
      case Assign(x, e) => n := AssignSim(p, names, fuel, env, x, e, at, before, f, handlers, exc);
      case Do(e) => n := DoSim(p, names, fuel, env, e, at, before, f, handlers, exc);
      case If(c, t, e) => n := IfSim(p, names, fuel, env, c, t, e, at, before, f, handlers, exc);
      case While(c, body) => n := WhileStmtSim(p, names, fuel, env, c, body, at, before, f, handlers, exc);
      case Try(body, x, handler) => n := TrySim(p, names, fuel, env, body, x, handler, at, before, f, handlers, exc);
      case Finally(body, cleanup) => n := FinallySim(p, names, fuel, env, body, cleanup, at, before, f, handlers, exc);
    }
  }
}
