/** The structured source language: its syntax and what a program means. */
module Sources {
  import opened Wrappers

  /** Integers are told apart because the interpreter boxes stack depths as integers; everything else,
      booleans, floats and exceptions among them, is an atom.  An unassigned variable reads as null. */
  datatype Value = Null | Int(n: int) | Atom(id: nat)

  datatype Answer = Ok(value: Value) | Err(exc: Value)

  datatype BinOp = Add | Sub | Mul | Div | IDiv | Rem | And | Or | Xor | Shl | Shr | Ushr | Lt | Le | Gt | Ge | Eq | Egal

  datatype Builtin = BAdd | BSub | BMul | BDiv | BIDiv | BRem | BAnd | BOr | BXor | BShl | BShr | BLshr | BSlt | BSle | BEq | BEgal

  /** The primitive operations, which may raise, and which values count as true. */
  datatype Host = Host(apply: (Builtin, Value, Value) -> Answer, truth: Value -> bool, nothing: Value)

  datatype Expr = Lit(v: Value) | Var(name: string) | Bin(op: BinOp, l: Expr, r: Expr) | Throw(e: Expr)

  datatype Stmt =
    | Assign(name: string, e: Expr)
    | Do(e: Expr)
    | If(cond: Expr, then_: Block, else_: Block)
    | While(cond: Expr, body: Block)
    | Try(body: Block, var_: Option<string>, handler: Block)
    | Finally(body: Block, cleanup: Block)

  datatype Block = End | Then(first: Stmt, rest: Block)

  /** The meaning of an operator: comparisons to the other side swap their operands. */
  function Meaning(host: Host, op: BinOp, x: Value, y: Value): Answer {
    match op
    case Add => host.apply(BAdd, x, y)
    case Sub => host.apply(BSub, x, y)
    case Mul => host.apply(BMul, x, y)
    case Div => host.apply(BDiv, x, y)
    case IDiv => host.apply(BIDiv, x, y)
    case Rem => host.apply(BRem, x, y)
    case And => host.apply(BAnd, x, y)
    case Or => host.apply(BOr, x, y)
    case Xor => host.apply(BXor, x, y)
    case Shl => host.apply(BShl, x, y)
    case Shr => host.apply(BShr, x, y)
    case Ushr => host.apply(BLshr, x, y)
    case Lt => host.apply(BSlt, x, y)
    case Le => host.apply(BSle, x, y)
    case Gt => host.apply(BSlt, y, x)
    case Ge => host.apply(BSle, y, x)
    case Eq => host.apply(BEq, x, y)
    case Egal => host.apply(BEgal, x, y)
  }

  type Env = map<string, Value>

  function Lookup(env: Env, x: string): Value {
    if x in env then env[x] else Null
  }

  /** Left operand first; the first exception is the expression's. */
  function Eval(host: Host, env: Env, e: Expr): Answer {
    match e
    case Lit(v) => Ok(v)
    case Var(x) => Ok(Lookup(env, x))
    case Bin(op, l, r) =>
      var a := Eval(host, env, l);
      if a.Err? then a else
      var b := Eval(host, env, r);
      if b.Err? then b else Meaning(host, op, a.value, b.value)
    case Throw(x) =>
      var a := Eval(host, env, x);
      if a.Err? then a else Err(a.value)
  }

  /** How a statement ends: normally, with the value it has, if any; by raising; or not within the fuel. */
  datatype Outcome = Done(env: Env, last: Option<Value>) | Raised(env: Env, exc: Value) | Timeout

  /** Each repetition of a loop takes a unit of fuel. */
  function Exec(host: Host, fuel: nat, env: Env, s: Stmt): Outcome
    decreases fuel, s, 0
  {
    match s
    case Assign(x, e) =>
      var a := Eval(host, env, e);
      if a.Err? then Raised(env, a.exc) else Done(env[x := a.value], Some(a.value))
    case Do(e) =>
      var a := Eval(host, env, e);
      if a.Err? then Raised(env, a.exc) else Done(env, Some(a.value))
    case If(c, t, f) =>
      var a := Eval(host, env, c);
      if a.Err? then Raised(env, a.exc)
      else Quiet(ExecBlock(host, fuel, env, if host.truth(a.value) then t else f, None))
    case While(c, body) => ExecWhile(host, fuel, env, c, body)
    case Try(body, x, handler) =>
      var r := Quiet(ExecBlock(host, fuel, env, body, None));
      if !r.Raised? then r
      else
        var bound := if x.Some? then r.env[x.value := r.exc] else r.env;
        Quiet(ExecBlock(host, fuel, bound, handler, None))
    case Finally(body, cleanup) =>
      var r := Quiet(ExecBlock(host, fuel, env, body, None));
      if r.Timeout? then Timeout
      else
        var c := Quiet(ExecBlock(host, fuel, r.env, cleanup, None));
        if c.Done? && r.Raised? then Raised(c.env, r.exc) else c
  }

  function ExecWhile(host: Host, fuel: nat, env: Env, c: Expr, body: Block): Outcome
    decreases fuel, body, 1
  {
    if fuel == 0 then Timeout
    else
      var a := Eval(host, env, c);
      if a.Err? then Raised(env, a.exc)
      else if !host.truth(a.value) then Done(env, None)
      else
        var r := ExecBlock(host, fuel, env, body, None);
        if r.Done? then ExecWhile(host, fuel - 1, r.env, c, body) else r
  }

  /** A block has the value of its last statement; `last` is the value so far. */
  function ExecBlock(host: Host, fuel: nat, env: Env, b: Block, last: Option<Value>): Outcome
    decreases fuel, b, 0
  {
    match b
    case End => Done(env, last)
    case Then(s, rest) =>
      var r := Exec(host, fuel, env, s);
      if r.Done? then ExecBlock(host, fuel, r.env, rest, r.last) else r
  }

  /** Control statements have no value. */
  function Quiet(r: Outcome): Outcome {
    if r.Done? then r.(last := None) else r
  }

  /** A program's value is its last statement's, or zero. */
  function ProgramValue(last: Option<Value>): Value {
    if last.Some? then last.value else Int(0)
  }
}
