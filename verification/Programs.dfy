/** Whole programs: the source's outcome and the interpreter's are the same. */
module Programs {
  import opened Wrappers
  import opened Sources
  import opened Interps
  import opened Lowerings
  import opened Simulation
  import opened StmtSimulation

  function ProgramOf(host: Host, b: Block): Program {
    Program(host, LowerProgram(b).code, |LowerProgram(b).names|)
  }

  /** The frame a run starts from: each variable of the program in its slot, null where it has no value. */
  ghost predicate Seeded(host: Host, b: Block, env: Env, f: seq<Value>) {
    Holds(ProgramOf(host, b), LowerProgram(b).names, env, f)
  }

  lemma SlotsAreOk(b: Block)
    ensures var r := LowerProgram(b); SlotsOk(r.names, |r.names|)
  {
    BlockNames(b, 0, map[], None);
    assert NamesOk(LowerBlock(b, 0, map[], None).names);
  }

  /** There is such a frame for every program and every environment. */
  lemma CanSeed(host: Host, b: Block, env: Env) returns (f: seq<Value>)
    ensures Seeded(host, b, env, f)
  {
    var p, names := ProgramOf(host, b), LowerProgram(b).names;
    SlotsAreOk(b);
    f := seq(p.base + |p.code|, (i: int) => ValueAt(names, env, i));
    forall x | x in names ensures f[names[x]] == Lookup(env, x) {
      assert ValueAt(names, env, names[x]) == Lookup(env, x);
    }
  }

  ghost function ValueAt(names: Names, env: Env, i: int): Value {
    if exists x :: x in names && names[x] == i then
      var x :| x in names && names[x] == i;
      Lookup(env, x)
    else Null
  }

  /** Every terminating source run is matched: the interpreter returns the program's value, with the
      exception stack as it was, or the uncaught exception; and its frame holds the final variables. */
  lemma SourceIsMatched(host: Host, fuel: nat, env: Env, b: Block, f: seq<Value>, exc: seq<Value>) returns (n: nat)
    requires Seeded(host, b, env, f)
    ensures var c := RunN(ProgramOf(host, b), At(0, f, [], exc), n);
            match ExecBlock(host, fuel, env, b, None)
            case Done(env', last) => c == Finished(Ok(ProgramValue(last)), FrameOf(c), exc) && Seeded(host, b, env', FrameOf(c))
            case Raised(env', x) => c.Finished? && c.answer == Err(x) && Seeded(host, b, env', FrameOf(c))
            case Timeout => c.Running? && fuel <= n
  {
    hide RunN, ExecBlock, LowerBlock, Holds, Placed;
    var p, r := ProgramOf(host, b), LowerBlock(b, 0, map[], None);
    var ret := Return(ReturnOf(r.last));
    WholePlaced(p, r.code, ret);
    SameExtends(r.names);
    NoLast(p, f);
    n := BlockSim(p, r.names, fuel, env, b, 0, map[], None, None, f, [], exc);
    var o := ExecBlock(host, fuel, env, b, None);
    if o.Done? {
      PlacedInstr(p, |r.code|, ret);
      OneStep(p, At(0, f, [], exc), n);
      n := n + 1;
    }
  }

  lemma WholePlaced(p: Program, code: seq<Instr>, last: Instr)
    requires p.code == code + [last]
    ensures Placed(p, 0, code) && Placed(p, |code|, [last])
  {
    assert p.code[0..|p.code|] == p.code;
    PlacedParts(p, 0, code, [last]);
  }

  lemma SameExtends(names: Names)
    ensures Extends(names, names)
  {
  }

  /** A machine that has stopped is found stopped at any later time. */
  lemma StaysStopped(p: Program, c: Conf, n: nat, m: nat)
    requires n <= m && !RunN(p, c, n).Running?
    ensures RunN(p, c, m) == RunN(p, c, n)
  {
    hide RunN;
    RunAdd(p, c, n, m - n);
    RunStopped(p, RunN(p, c, n), m - n);
  }

  /** Conversely, whenever the interpreter stops it has finished, and the source ends the same way. */
  lemma MachineIsMatched(host: Host, env: Env, b: Block, f: seq<Value>, exc: seq<Value>, n: nat)
    requires Seeded(host, b, env, f) && !RunN(ProgramOf(host, b), At(0, f, [], exc), n).Running?
    ensures var c := RunN(ProgramOf(host, b), At(0, f, [], exc), n);
            match ExecBlock(host, n + 1, env, b, None)
            case Done(env', last) => c == Finished(Ok(ProgramValue(last)), FrameOf(c), exc) && Seeded(host, b, env', FrameOf(c))
            case Raised(env', x) => c.Finished? && c.answer == Err(x) && Seeded(host, b, env', FrameOf(c))
            case Timeout => false
  {
    hide RunN, ExecBlock, Seeded, ProgramOf;
    var p, start := ProgramOf(host, b), At(0, f, [], exc);
    var m := SourceIsMatched(host, n + 1, env, b, f, exc);
    if n <= m {
      StaysStopped(p, start, n, m);
    } else {
      StaysStopped(p, start, m, n);
    }
  }

  ghost predicate SourceDiverges(host: Host, env: Env, b: Block) {
    forall fuel: nat :: ExecBlock(host, fuel, env, b, None).Timeout?
  }

  ghost predicate MachineDiverges(p: Program, c: Conf) {
    forall n: nat :: RunN(p, c, n).Running?
  }

  /** The source runs forever exactly when the interpreter does. */
  lemma DivergeTogether(host: Host, env: Env, b: Block, f: seq<Value>, exc: seq<Value>)
    requires Seeded(host, b, env, f)
    ensures SourceDiverges(host, env, b) <==> MachineDiverges(ProgramOf(host, b), At(0, f, [], exc))
  {
    hide RunN, ExecBlock, Seeded, ProgramOf;
    var p, start := ProgramOf(host, b), At(0, f, [], exc);
    if SourceDiverges(host, env, b) {
      forall n: nat ensures RunN(p, start, n).Running? {
        if !RunN(p, start, n).Running? {
          assert ExecBlock(host, n + 1, env, b, None).Timeout?;
          MachineIsMatched(host, env, b, f, exc, n);
        }
      }
    }
    if MachineDiverges(p, start) {
      forall fuel: nat ensures ExecBlock(host, fuel, env, b, None).Timeout? {
        var n := SourceIsMatched(host, fuel, env, b, f, exc);
        assert RunN(p, start, n).Running?;
      }
    }
  }
}
