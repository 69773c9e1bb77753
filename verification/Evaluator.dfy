/** The interpreter loop as it works, and a source program run through lowering, seeding and the loop. */
module Evaluators {
  import opened Wrappers
  import opened Sources
  import opened Interps
  import opened Lowerings
  import opened Simulation
  import opened Programs
  import opened Variables
  import opened Lowerers

  /** One activation: registers, a frame of fixed size, and the exceptions being handled. */
  class Evaluator {
    const p: Program
    const frame: array<Value>
    var ip: nat
    var handlers: seq<nat>
    var exc: seq<Value>
    var result: Option<Answer>
    var stuck: bool

    ghost function Now(): Conf
      reads this, frame
    {
      if stuck then Stuck
      else match result
        case Some(a) => Finished(a, frame[..], exc)
        case None => Running(State(ip, frame[..], handlers, exc))
    }

    constructor (p: Program, f: seq<Value>, exc: seq<Value>)
      ensures this.p == p && fresh(frame) && Now() == At(0, f, [], exc)
    {
      this.p := p;
      frame := new Value[|f|](i requires 0 <= i < |f| => f[i]);
      ip, handlers, result, stuck := 0, [], None, false;
      this.exc := exc;
      new;
      assert frame[..] == f;
    }

    method ReadOp(op: Op) returns (v: Value)
      ensures v == Read(p, frame[..], op)
    {
      match op {
        case Const(c) => v := c;
        case Slot(k) =>
          v := Null;
          if k < frame.Length { v := frame[k]; }
        case Ssa(i) =>
          v := Null;
          if p.base + i < frame.Length { v := frame[p.base + i]; }
      }
    }

    /** Store the result of the present instruction and go on. */
    method SetResult(v: Value)
      requires Now().Running?
      modifies this`ip, this`stuck, frame
      ensures Now() == Result(p, old(Now()).st, v)
    {
      if p.base + ip < frame.Length {
        frame[p.base + ip] := v;
        ip := ip + 1;
      } else {
        stuck := true;
      }
    }

    /** Divert to the innermost handler, or leave the frame with the exception. */
    method Divert(stack: seq<Value>, e: Value)
      requires Now().Running?
      modifies this`ip, this`handlers, this`exc, this`result
      ensures Now() == Land(old(Now()).st, stack, e)
    {
      if handlers == [] {
        result := Some(Err(e));
      } else {
        ip := handlers[|handlers| - 1];
        handlers := handlers[..|handlers| - 1];
        exc := stack;
      }
    }

    method StepCall(b: Builtin, x: Op, y: Op)
      requires Now().Running? && ip < |p.code| && p.code[ip] == Call(b, x, y)
      modifies this, frame
      ensures Now() == Step(p, old(Now()).st)
    {
      hide Result, Land, Read;
      var v := ReadOp(x);
      var w := ReadOp(y);
      var a := p.host.apply(b, v, w);
      if a.Err? {
        Divert(exc + [a.exc], a.exc);
      } else {
        SetResult(a.value);
      }
    }

    method StepStore(k: nat, op: Op)
      requires Now().Running? && ip < |p.code| && p.code[ip] == Store(k, op)
      modifies this, frame
      ensures Now() == Step(p, old(Now()).st)
    {
      hide Result, Land, Read;
      var v := ReadOp(op);
      if k < frame.Length {
        frame[k] := v;
        assert frame[..] == old(frame[..])[k := v];
        SetResult(v);
      } else {
        stuck := true;
      }
    }

    method StepPop(op: Op)
      requires Now().Running? && ip < |p.code| && p.code[ip] == PopException(op)
      modifies this, frame
      ensures Now() == Step(p, old(Now()).st)
    {
      hide Result, Land, Read;
      var d := ReadOp(op);
      if d.Int? && 0 <= d.n {
        if d.n <= |exc| {
          exc := exc[..d.n];
        }
        ip := ip + 1;
      } else {
        stuck := true;
      }
    }

    /** One turn of the loop. */
    method StepOnce()
      requires Now().Running?
      modifies this, frame
      ensures Now() == Step(p, old(Now()).st)
    {
      hide Result, Land, Read;
      if ip >= |p.code| {
        stuck := true;
        return;
      }
      match p.code[ip] {
        case Call(b, x, y) => StepCall(b, x, y);
        case Store(k, op) => StepStore(k, op);
        case Goto(t) => ip := t;
        case GotoIfNot(c, t) =>
          var v := ReadOp(c);
          if p.host.truth(v) {
            ip := ip + 1;
          } else {
            ip := t;
          }
        case Enter(t) =>
          handlers := handlers + [t];
          SetResult(Int(|exc|));
        case Leave(n) =>
          handlers := if n <= |handlers| then handlers[..|handlers| - n] else [];
          ip := ip + 1;
        case Raise(op) =>
          var v := ReadOp(op);
          Divert(exc + [v], v);
        case Caught => SetResult(Current(p, exc));
        case Rethrow => Divert(exc, Current(p, exc));
        case PopException(op) => StepPop(op);
        case Return(op) =>
          var v := ReadOp(op);
          result := Some(Ok(v));
      }
    }

    /** The loop, for at most `limit` turns. */
    method Run(limit: nat)
      modifies this, frame
      ensures Now() == RunN(p, old(Now()), limit)
    {
      var left: nat := limit;
      while left > 0 && !stuck && result == None
        invariant 0 <= left <= limit && RunN(p, Now(), left) == RunN(p, old(Now()), limit)
        decreases left
      {
        StepOnce();
        left := left - 1;
      }
      if left > 0 {
        RunStopped(p, Now(), left);
      }
    }
  }

  /** A frame with each variable's value in its slot. */
  method Seed(names: Names, globals: Env, size: nat) returns (f: seq<Value>)
    requires forall x :: x in names ==> names[x] < size
    requires forall x, y :: x in names && y in names && names[x] == names[y] ==> x == y
    ensures |f| == size && forall x :: x in names ==> f[names[x]] == Lookup(globals, x)
  {
    f := seq(size, _ => Null);
    var todo := names.Keys;
    while todo != {}
      invariant |f| == size && todo <= names.Keys
      invariant forall x :: x in names ==> f[names[x]] == if x in todo then Null else Lookup(globals, x)
      decreases todo
    {
      var x :| x in todo;
      if x in globals {
        f := f[names[x] := globals[x]];
      }
      todo := todo - {x};
    }
  }

  /** Write the variables that have a value back to the globals. */
  method Flush(names: Names, globals: Env, f: seq<Value>) returns (globals': Env)
    requires forall x :: x in names ==> names[x] < |f|
    ensures forall x :: Lookup(globals', x) == if x in names && f[names[x]] != Null then f[names[x]] else Lookup(globals, x)
  {
    globals' := globals;
    var todo := names.Keys;
    while todo != {}
      invariant todo <= names.Keys
      invariant forall x :: Lookup(globals', x) == if x in names && x !in todo && f[names[x]] != Null then f[names[x]] else Lookup(globals, x)
      decreases todo
    {
      var x :| x in todo;
      if f[names[x]] != Null {
        globals' := globals'[x := f[names[x]]];
      }
      todo := todo - {x};
    }
  }

  /** Run a source program from `globals` for at most `limit` turns of the loop, starting from the frame `f`.  An
      answer is the source's answer; normal completion updates the globals to the final variables and leaves the
      exception stack as it was; globals the program does not name stay.  There is no answer exactly when the run from `f` needs more turns than the limit. */
  method EvalSource(host: Host, b: Block, globals: Env, exc: seq<Value>, limit: nat)
    returns (r: Option<Answer>, globals': Env, exc': seq<Value>, ghost f: seq<Value>)
    ensures Seeded(host, b, globals, f)
    ensures r.None? <==> RunN(ProgramOf(host, b), At(0, f, [], exc), limit).Running?
    ensures match r
            case Some(Ok(v)) =>
              var o := ExecBlock(host, limit + 1, globals, b, None);
              && o.Done? && v == ProgramValue(o.last) && exc' == exc
              && forall x :: Lookup(globals', x) == if Lookup(o.env, x) != Null then Lookup(o.env, x) else Lookup(globals, x)
            case Some(Err(e)) =>
              var o := ExecBlock(host, limit + 1, globals, b, None);
              o.Raised? && e == o.exc && globals' == globals
            case None => globals' == globals
  {
    hide RunN, ExecBlock, LowerProgram;
    var code, slots := LowerSource(b);
    var p := Program(host, code, |slots|);
    SlotsAreOk(b);
    var frame := Seed(slots, globals, |slots| + |code|);
    f := frame;
    assert Seeded(host, b, globals, f);
    var ev := new Evaluator(p, frame, exc);
    ev.Run(limit);
    r, globals', exc' := ev.result, globals, ev.exc;
    if !RunN(p, At(0, f, [], exc), limit).Running? {
      MachineIsMatched(host, globals, b, f, exc, limit);
    }
    if r.Some? && r.value.Ok? {
      globals' := Flush(slots, globals, ev.frame[..]);
      forall x | x !in slots ensures Keeps(globals, ExecBlock(host, limit + 1, globals, b, None), x) {
        ProgramKeeps(host, limit + 1, globals, b, x);
      }
    }
  }

  /** A source run that ends, with any allowance, needs only so many turns: from every frame for its globals a limit
      of `n` or more gives an answer. */
  lemma EnoughTurns(host: Host, fuel: nat, env: Env, b: Block, f: seq<Value>, exc: seq<Value>) returns (n: nat)
    requires Seeded(host, b, env, f) && !ExecBlock(host, fuel, env, b, None).Timeout?
    ensures forall limit: nat :: RunN(ProgramOf(host, b), At(0, f, [], exc), limit).Running? ==> limit < n
  {
    hide RunN, ExecBlock, Seeded, ProgramOf;
    n := SourceIsMatched(host, fuel, env, b, f, exc);
    forall limit: nat | n <= limit ensures !RunN(ProgramOf(host, b), At(0, f, [], exc), limit).Running? {
      StaysStopped(ProgramOf(host, b), At(0, f, [], exc), n, limit);
    }
  }

  /** No variable that had a value has been made null. */
  ghost predicate NoneCleared(before: Env, env: Env) {
    forall x :: Lookup(env, x) == Null ==> Lookup(before, x) == Null
  }

  /** Two programs, one after the other, each within the limit.  Unless a variable is made null, they do to the globals what
      the one program made of both does, and the second has that program's value. */
  method EvalInTurn(host: Host, a: Block, b: Block, globals: Env, exc: seq<Value>, limit: nat)
    returns (r: Option<Answer>, q: Option<Answer>, globals': Env, exc': seq<Value>)
    ensures r.Some? && r.value.Ok? && q.Some? && q.value.Ok? ==>
              var o := ExecBlock(host, limit + 1, globals, a, None);
              var p := ExecBlock(host, limit + 1, globals, Append(a, b), None);
              && o.Done? && exc' == exc
              && (NoneCleared(globals, o.env) ==>
                    && p.Done? && (b.Then? ==> q.value.value == ProgramValue(p.last))
                    && (NoneCleared(o.env, p.env) ==> SameValues(globals', p.env)))
  {
    hide RunN, ExecBlock, LowerProgram, Seeded, ProgramOf;
    ghost var f;
    r, globals', exc', f := EvalSource(host, a, globals, exc, limit);
    q := None;
    if r.Some? && r.value.Ok? {
      ghost var between := globals';
      q, globals', exc', f := EvalSource(host, b, globals', exc', limit);
      ghost var o := ExecBlock(host, limit + 1, globals, a, None);
      if q.Some? && q.value.Ok? && NoneCleared(globals, o.env) {
        InTurn(host, limit + 1, globals, a, b, between);
      }
    }
  }

  lemma InTurn(host: Host, fuel: nat, env: Env, a: Block, b: Block, between: Env)
    requires ExecBlock(host, fuel, env, a, None).Done? && SameValues(between, ExecBlock(host, fuel, env, a, None).env)
    ensures var p, q := ExecBlock(host, fuel, env, Append(a, b), None), ExecBlock(host, fuel, between, b, None);
            && (q.Done? ==> p.Done? && SameValues(q.env, p.env) && (b.Then? ==> p.last == q.last))
  {
    hide Exec;
    var o := ExecBlock(host, fuel, env, a, None);
    AppendRuns(host, fuel, env, a, b, None);
    BlockAlike(host, fuel, between, o.env, b, None);
    if b.Then? { LastIsReplaced(host, fuel, o.env, b, o.last); }
  }
}
