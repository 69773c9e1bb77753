/** The interpreter's flat code and its machine: an instruction pointer, one frame of slots and
    instruction results, a stack of handlers and the stack of exceptions being handled. */
module Interps {
  import opened Sources

  datatype Op = Const(v: Value) | Slot(k: nat) | Ssa(i: nat)

  datatype Instr =
    | Call(b: Builtin, x: Op, y: Op)
    | Store(slot: nat, op: Op)
    | Goto(target: nat)
    | GotoIfNot(cond: Op, target: nat)
    | Enter(target: nat)
    | Leave(n: nat)
    | Raise(op: Op)
    | Caught
    | Rethrow
    | PopException(op: Op)
    | Return(op: Op)

  /** Slots come first in the frame; the result of the instruction at `i` is at `base + i`. */
  datatype Program = Program(host: Host, code: seq<Instr>, base: nat)

  datatype State = State(ip: nat, frame: seq<Value>, handlers: seq<nat>, exc: seq<Value>)

  datatype Conf = Running(st: State) | Finished(answer: Answer, frame: seq<Value>, exc: seq<Value>) | Stuck

  function Read(p: Program, frame: seq<Value>, op: Op): Value {
    match op
    case Const(v) => v
    case Slot(k) => if k < |frame| then frame[k] else Null
    case Ssa(i) => if p.base + i < |frame| then frame[p.base + i] else Null
  }

  /** Record the result of the present instruction and go on. */
  function Result(p: Program, st: State, v: Value): Conf {
    if p.base + st.ip < |st.frame|
    then Running(st.(ip := st.ip + 1, frame := st.frame[p.base + st.ip := v]))
    else Stuck
  }

  /** Go to the innermost handler with the exception on the stack, or leave the frame. */
  function Land(st: State, exc: seq<Value>, e: Value): Conf {
    if st.handlers == [] then Finished(Err(e), st.frame, st.exc)
    else
      var n := |st.handlers| - 1;
      Running(State(st.handlers[n], st.frame, st.handlers[..n], exc))
  }

  function Current(p: Program, exc: seq<Value>): Value {
    if exc == [] then p.host.nothing else exc[|exc| - 1]
  }

  function Drop(s: seq<nat>, n: nat): seq<nat> {
    if n <= |s| then s[..|s| - n] else []
  }

  function Step(p: Program, st: State): Conf {
    if st.ip >= |p.code| then Stuck
    else match p.code[st.ip]
      case Call(b, x, y) =>
        var a := p.host.apply(b, Read(p, st.frame, x), Read(p, st.frame, y));
        if a.Err? then Land(st, st.exc + [a.exc], a.exc) else Result(p, st, a.value)
      case Store(k, op) =>
        var v := Read(p, st.frame, op);
        if k < |st.frame| then Result(p, st.(frame := st.frame[k := v]), v) else Stuck
      case Goto(t) => Running(st.(ip := t))
      case GotoIfNot(c, t) => Running(st.(ip := if p.host.truth(Read(p, st.frame, c)) then st.ip + 1 else t))
      case Enter(t) => Result(p, st.(handlers := st.handlers + [t]), Int(|st.exc|))
      case Leave(n) => Running(st.(ip := st.ip + 1, handlers := Drop(st.handlers, n)))
      case Raise(op) => var v := Read(p, st.frame, op); Land(st, st.exc + [v], v)
      case Caught => Result(p, st, Current(p, st.exc))
      case Rethrow => Land(st, st.exc, Current(p, st.exc))
      case PopException(op) =>
        var d := Read(p, st.frame, op);
        if d.Int? && 0 <= d.n
        then Running(st.(ip := st.ip + 1, exc := if d.n <= |st.exc| then st.exc[..d.n] else st.exc))
        else Stuck
      case Return(op) => Finished(Ok(Read(p, st.frame, op)), st.frame, st.exc)
  }

  function StepConf(p: Program, c: Conf): Conf {
    if c.Running? then Step(p, c.st) else c
  }

  function RunN(p: Program, c: Conf, n: nat): Conf
    decreases n
  {
    if n == 0 then c else RunN(p, StepConf(p, c), n - 1)
  }

  lemma {:induction false} RunAdd(p: Program, c: Conf, m: nat, n: nat)
    ensures RunN(p, c, m + n) == RunN(p, RunN(p, c, m), n)
    decreases m
  {
    if m > 0 {
      RunAdd(p, StepConf(p, c), m - 1, n);
    }
  }

  lemma RunOne(p: Program, c: Conf)
    ensures RunN(p, c, 1) == StepConf(p, c)
  {
    assert RunN(p, c, 1) == RunN(p, StepConf(p, c), 0);
  }

  /** A finished machine stays as it is. */
  lemma {:induction false} RunStopped(p: Program, c: Conf, n: nat)
    requires !c.Running?
    ensures RunN(p, c, n) == c
    decreases n
  {
    if n > 0 {
      RunStopped(p, c, n - 1);
    }
  }
}
