/** What a program does to variables: those it does not name it leaves alone, and it sees nothing of its environment but
    their values. */
module Variables {
  import opened Wrappers
  import opened Sources
  import opened Lowerings
  import opened Interps

  ghost predicate SameValues(a: Env, b: Env) { forall x :: Lookup(a, x) == Lookup(b, x) }

  // --- variables not named -----------------------------------------------------------------------------

  ghost predicate Keeps(env: Env, r: Outcome, x: string) { !r.Timeout? ==> Lookup(r.env, x) == Lookup(env, x) }

  lemma KeptEarlier(a: Names, b: Names, x: string)
    requires Grows(a, b) && x !in b
    ensures x !in a
  {
  }

  lemma {:induction false} StmtKeeps(host: Host, fuel: nat, env: Env, s: Stmt, at: nat, names: Names, x: string)
    requires x !in LowerStmt(s, at, names).names
    ensures Keeps(env, Exec(host, fuel, env, s), x)
    decreases fuel, s, 1
  {
    hide Grows, LowerExpr, LowerBlock, LowerIf, LowerWhile, LowerTry, LowerFinally, ExecBlock, ExecWhile, Eval;
    match s
    case Assign(y, e) =>
    case Do(e) =>
    case If(c, t, f) =>
      var a := LowerExpr(c, at, names);
      var u := LowerBlock(t, at + |a.code| + 1, a.names, None);
      BlockNames(f, at + |a.code| + 1 + |u.code| + 1, u.names, None);
      KeptEarlier(u.names, LowerStmt(s, at, names).names, x);
      BlockKeeps(host, fuel, env, t, None, at + |a.code| + 1, a.names, None, x);
      BlockKeeps(host, fuel, env, f, None, at + |a.code| + 1 + |u.code| + 1, u.names, None, x);
    case While(c, body) =>
      var a := LowerExpr(c, at, names);
      WhileKeeps(host, fuel, env, c, body, at + |a.code| + 1, a.names, x);
    case Try(body, v, handler) => TryKeeps(host, fuel, env, body, v, handler, at, names, x);
    case Finally(body, cleanup) =>
      var u := LowerBlock(body, at + 1, names, None);
      var y := LowerBlock(cleanup, at + 1 + |u.code| + 1, u.names, None);
      BlockNames(cleanup, at + 1 + |u.code| + 1, u.names, None);
      BlockNames(cleanup, at + 1 + |u.code| + 1 + |y.code| + 1, y.names, None);
      KeptEarlier(y.names, LowerStmt(s, at, names).names, x);
      KeptEarlier(u.names, y.names, x);
      BlockKeeps(host, fuel, env, body, None, at + 1, names, None, x);
      var r := ExecBlock(host, fuel, env, body, None);
      if !r.Timeout? { BlockKeeps(host, fuel, r.env, cleanup, None, at + 1 + |u.code| + 1, u.names, None, x); }
  }

  lemma TryKeeps(host: Host, fuel: nat, env: Env, body: Block, v: Option<string>, handler: Block, at: nat, names: Names, x: string)
    requires x !in LowerStmt(Try(body, v, handler), at, names).names
    ensures Keeps(env, Exec(host, fuel, env, Try(body, v, handler)), x)
    decreases fuel, Try(body, v, handler), 0
  {
    hide Grows, LowerBlock, LowerTry, ExecBlock;
    var u := LowerBlock(body, at + 1, names, None);
    var start := at + 1 + |u.code| + 2;
    var b := LowerBind(v, start, u.names);
    BlockNames(handler, start + |b.code|, b.names, None);
    BindNames(v, start, u.names);
    KeptEarlier(b.names, LowerStmt(Try(body, v, handler), at, names).names, x);
    KeptEarlier(u.names, b.names, x);
    BlockKeeps(host, fuel, env, body, None, at + 1, names, None, x);
    var r := ExecBlock(host, fuel, env, body, None);
    if r.Raised? {
      var bound := if v.Some? then r.env[v.value := r.exc] else r.env;
      BlockKeeps(host, fuel, bound, handler, None, start + |b.code|, b.names, None, x);
    }
  }

  lemma {:induction false} WhileKeeps(host: Host, fuel: nat, env: Env, c: Expr, body: Block, at: nat, names: Names, x: string)
    requires x !in LowerBlock(body, at, names, None).names
    ensures Keeps(env, ExecWhile(host, fuel, env, c, body), x)
    decreases fuel, body, 2
  {
    hide LowerBlock, ExecBlock;
    if fuel > 0 {
      BlockKeeps(host, fuel, env, body, None, at, names, None, x);
      var r := ExecBlock(host, fuel, env, body, None);
      if r.Done? { WhileKeeps(host, fuel - 1, r.env, c, body, at, names, x); }
    }
  }

  lemma {:induction false} BlockKeeps(host: Host, fuel: nat, env: Env, b: Block, last: Option<Value>, at: nat, names: Names, op: Option<Op>, x: string)
    requires x !in LowerBlock(b, at, names, op).names
    ensures Keeps(env, ExecBlock(host, fuel, env, b, last), x)
    decreases fuel, b, 1
  {
    hide Grows, LowerStmt, Exec;
    if b.Then? {
      var u := LowerStmt(b.first, at, names);
      BlockNames(b.rest, at + |u.code|, u.names, u.last);
      KeptEarlier(u.names, LowerBlock(b, at, names, op).names, x);
      StmtKeeps(host, fuel, env, b.first, at, names, x);
      var r := Exec(host, fuel, env, b.first);
      if r.Done? { BlockKeeps(host, fuel, r.env, b.rest, r.last, at + |u.code|, u.names, u.last, x); }
    }
  }

  /** A program leaves every variable it does not name as it was. */
  lemma ProgramKeeps(host: Host, fuel: nat, env: Env, b: Block, x: string)
    requires x !in LowerProgram(b).names
    ensures Keeps(env, ExecBlock(host, fuel, env, b, None), x)
  {
    BlockKeeps(host, fuel, env, b, None, 0, map[], None, x);
  }

  // --- environments with the same values --------------------------------------------------------------------

  /** Outcomes that differ at most in how their environments are written down. */
  ghost predicate Alike(r: Outcome, q: Outcome) {
    match r
    case Done(env, last) => q.Done? && SameValues(env, q.env) && q.last == last
    case Raised(env, exc) => q.Raised? && SameValues(env, q.env) && q.exc == exc
    case Timeout => q.Timeout?
  }

  lemma {:induction false} EvalAlike(host: Host, a: Env, b: Env, e: Expr)
    requires SameValues(a, b)
    ensures Eval(host, a, e) == Eval(host, b, e)
  {
    match e
    case Lit(_) =>
    case Var(_) =>
    case Bin(_, l, r) =>
      EvalAlike(host, a, b, l);
      EvalAlike(host, a, b, r);
    case Throw(x) => EvalAlike(host, a, b, x);
  }

  lemma SetAlike(a: Env, b: Env, x: string, v: Value)
    requires SameValues(a, b)
    ensures SameValues(a[x := v], b[x := v])
  {
    var a', b' := a[x := v], b[x := v];
    forall y ensures Lookup(a', y) == Lookup(b', y) {
      assert Lookup(a, y) == Lookup(b, y);
    }
  }

  lemma {:induction false} StmtAlike(host: Host, fuel: nat, a: Env, b: Env, s: Stmt)
    requires SameValues(a, b)
    ensures Alike(Exec(host, fuel, a, s), Exec(host, fuel, b, s))
    decreases fuel, s, 0
  {
    hide ExecBlock, ExecWhile, Eval;
    match s
    case Assign(x, e) =>
      EvalAlike(host, a, b, e);
      if Eval(host, a, e).Ok? { SetAlike(a, b, x, Eval(host, a, e).value); }
    case Do(e) => EvalAlike(host, a, b, e);
    case If(c, t, f) =>
      EvalAlike(host, a, b, c);
      BlockAlike(host, fuel, a, b, t, None);
      BlockAlike(host, fuel, a, b, f, None);
    case While(c, body) => WhileAlike(host, fuel, a, b, c, body);
    case Try(body, v, handler) =>
      BlockAlike(host, fuel, a, b, body, None);
      var r, q := ExecBlock(host, fuel, a, body, None), ExecBlock(host, fuel, b, body, None);
      if r.Raised? {
        if v.Some? { SetAlike(r.env, q.env, v.value, r.exc); }
        BlockAlike(host, fuel, if v.Some? then r.env[v.value := r.exc] else r.env, if v.Some? then q.env[v.value := q.exc] else q.env, handler, None);
      }
    case Finally(body, cleanup) =>
      BlockAlike(host, fuel, a, b, body, None);
      var r, q := ExecBlock(host, fuel, a, body, None), ExecBlock(host, fuel, b, body, None);
      if !r.Timeout? { BlockAlike(host, fuel, r.env, q.env, cleanup, None); }
  }

  lemma {:induction false} WhileAlike(host: Host, fuel: nat, a: Env, b: Env, c: Expr, body: Block)
    requires SameValues(a, b)
    ensures Alike(ExecWhile(host, fuel, a, c, body), ExecWhile(host, fuel, b, c, body))
    decreases fuel, body, 1
  {
    hide ExecBlock, Eval;
    if fuel > 0 {
      EvalAlike(host, a, b, c);
      BlockAlike(host, fuel, a, b, body, None);
      var r, q := ExecBlock(host, fuel, a, body, None), ExecBlock(host, fuel, b, body, None);
      if r.Done? { WhileAlike(host, fuel - 1, r.env, q.env, c, body); }
    }
  }

  lemma {:induction false} BlockAlike(host: Host, fuel: nat, a: Env, b: Env, k: Block, last: Option<Value>)
    requires SameValues(a, b)
    ensures Alike(ExecBlock(host, fuel, a, k, last), ExecBlock(host, fuel, b, k, last))
    decreases fuel, k, 0
  {
    hide Exec;
    if k.Then? {
      StmtAlike(host, fuel, a, b, k.first);
      var r, q := Exec(host, fuel, a, k.first), Exec(host, fuel, b, k.first);
      if r.Done? { BlockAlike(host, fuel, r.env, q.env, k.rest, r.last); }
    }
  }

  // --- one program after another --------------------------------------------------------------------------

  function Append(a: Block, b: Block): Block {
    match a
    case End => b
    case Then(s, rest) => Then(s, Append(rest, b))
  }

  lemma {:induction false} AppendRuns(host: Host, fuel: nat, env: Env, a: Block, b: Block, last: Option<Value>)
    ensures var r := ExecBlock(host, fuel, env, a, last);
            ExecBlock(host, fuel, env, Append(a, b), last) == if r.Done? then ExecBlock(host, fuel, r.env, b, r.last) else r
    decreases a
  {
    hide Exec;
    if a.Then? {
      var r := Exec(host, fuel, env, a.first);
      if r.Done? { AppendRuns(host, fuel, r.env, a.rest, b, r.last); }
    }
  }

  /** The value so far matters only to an empty block. */
  lemma LastIsReplaced(host: Host, fuel: nat, env: Env, b: Block, last: Option<Value>)
    requires b.Then?
    ensures ExecBlock(host, fuel, env, b, last) == ExecBlock(host, fuel, env, b, None)
  {
  }
}
