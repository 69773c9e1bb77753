/** The emitted instruction list under the machine's program counter and label stack does what the IR says:
    every event of the walk is matched by running the instructions emitted for it. */
module Instructions {
  import opened Cfgs
  import opened Shapes
  import opened Wrappers
  import opened Fixtures
  import opened Wasm
  import opened Emit
  import opened Compile
  import opened IrRuns
  import G = Structured
  import R = Relooper
  import F = FlatCode

  // --- where the instructions of each event stand ---------------------------------------------------

  /** A function's instructions, the events they were emitted for, and the index each event's code starts at. */
  datatype Listing = Listing(fx: Fixture, es: seq<R.Event>, at: seq<nat>, insns: seq<Insn>)

  ghost predicate EventLaid(p: Listing, j: nat)
    requires BlocksInside(p.fx) && |p.at| == |p.es| + 1
  {
    j < |p.es| ==>
      var c := EventCode(p.fx, p.es[j]);
      c.Some? && p.at[j + 1] == p.at[j] + |c.value| <= |p.insns| && p.insns[p.at[j]..p.at[j + 1]] == c.value
  }

  ghost predicate Laid(p: Listing) {
    BlocksInside(p.fx) && |p.at| == |p.es| + 1 && forall j: nat :: EventLaid(p, j)
  }

  /** The code of event `j`, and where it stands. */
  lemma CodeAt(p: Listing, j: nat)
    requires Laid(p) && j < |p.es|
    ensures EventCode(p.fx, p.es[j]).Some?
    ensures var c := EventCode(p.fx, p.es[j]).value;
            && p.at[j + 1] == p.at[j] + |c| <= |p.insns|
            && (forall k :: 0 <= k < |c| ==> p.insns[p.at[j] + k] == c[k])
  {
    hide EventCode;
    assert EventLaid(p, j);
    var c := EventCode(p.fx, p.es[j]).value;
    forall k | 0 <= k < |c| ensures p.insns[p.at[j] + k] == c[k] {
      assert p.insns[p.at[j]..p.at[j + 1]][k] == c[k];
    }
  }

  lemma {:induction false} InOrder(p: Listing, i: nat, j: nat)
    requires Laid(p) && i <= j <= |p.es|
    ensures p.at[i] <= p.at[j]
    decreases j - i
  {
    hide EventCode;
    if i < j {
      CodeAt(p, i);
      InOrder(p, i + 1, j);
    }
  }

  lemma {:induction false} PrefixCode(fx: Fixture, es: seq<R.Event>, i: nat)
    requires BlocksInside(fx) && EventsCode(fx, es).Some? && i <= |es|
    ensures EventsCode(fx, es[..i]).Some? && EventsCode(fx, es[..i]).value <= EventsCode(fx, es).value
    decreases |es| - i
  {
    hide EventCode;
    if i < |es| {
      PrefixCode(fx, es, i + 1);
      assert es[..i + 1][..i] == es[..i];
    } else {
      assert es[..i] == es;
    }
  }

  function ListingOf(fx: Fixture, es: seq<R.Event>, insns: seq<Insn>): (p: Listing)
    requires BlocksInside(fx)
    ensures |p.at| == |es| + 1
  {
    var at := seq(|es| + 1, i requires 0 <= i <= |es| =>
                var c := EventsCode(fx, es[..i]); |Prologue(fx)| + if c.Some? then |c.value| else 0);
    Listing(fx, es, at, insns)
  }

  lemma ListingIsLaid(fx: Fixture, es: seq<R.Event>, body: seq<Insn>)
    requires BlocksInside(fx) && EventsCode(fx, es) == Some(body)
    ensures Laid(ListingOf(fx, es, Whole(fx, body))) && ListingOf(fx, es, Whole(fx, body)).at[0] == |Prologue(fx)|
  {
    hide EventCode, Prologue;
    var p, n := ListingOf(fx, es, Whole(fx, body)), |Prologue(fx)|;
    forall j: nat | j < |es| ensures EventLaid(p, j) {
      PrefixCode(fx, es, j);
      PrefixCode(fx, es, j + 1);
      assert es[..j + 1][..j] == es[..j];
      var before, code := EventsCode(fx, es[..j]).value, EventCode(fx, es[j]).value;
      assert EventsCode(fx, es[..j + 1]).value == before + code;
      assert p.insns[n..n + |body|] == body;
      assert p.insns[p.at[j]..p.at[j + 1]] == body[|before|..|before| + |code|];
    }
  }

  // --- brackets --------------------------------------------------------------------------------------

  predicate Plain(c: seq<Insn>) { forall k :: 0 <= k < |c| ==> !OpensFrame(c[k]) && !c[k].End? && !c[k].Else? }

  lemma {:induction false} OperandsPlain(fx: Fixture, ops: seq<Operand>)
    requires OperandsCode(fx, ops).Some?
    ensures Plain(OperandsCode(fx, ops).value)
  {
    if ops != [] { OperandsPlain(fx, ops[..|ops| - 1]); }
  }

  lemma SetPlain(fx: Fixture, i: nat)
    requires i < |fx.stmts| && SetSsa(fx, i).Some?
    ensures Plain(SetSsa(fx, i).value)
  {
  }

  lemma OperandPlain(fx: Fixture, op: Operand)
    requires OperandCode(fx, op).Some?
    ensures Plain([OperandCode(fx, op).value])
  {
  }

  lemma StmtPlain(fx: Fixture, i: nat)
    requires i < |fx.stmts| && StmtCode(fx, i).Some?
    ensures Plain(StmtCode(fx, i).value)
  {
    hide OperandsCode, SetSsa, OperandCode;
    match fx.stmts[i].node
    case Call(_, args) =>
      OperandsPlain(fx, args);
      SetPlain(fx, i);
    case New(_, args) =>
      OperandPlain(fx, args[0]);
      SetPlain(fx, i);
    case GetField(obj, _) =>
      OperandPlain(fx, obj);
      assert [OperandCode(fx, obj).value][0] == OperandCode(fx, obj).value;
      SetPlain(fx, i);
    case _ =>
  }

  lemma {:induction false} StmtsPlain(fx: Fixture, lo: nat, hi: nat)
    requires lo <= hi <= |fx.stmts| && StmtsCode(fx, lo, hi).Some?
    ensures Plain(StmtsCode(fx, lo, hi).value)
    decreases hi - lo
  {
    hide StmtCode;
    if lo < hi {
      StmtsPlain(fx, lo, hi - 1);
      StmtPlain(fx, hi - 1);
    }
  }

  lemma MovePlain(fx: Fixture, x: nat, t: nat, i: nat)
    requires i < |fx.stmts| && t < |fx.blocks| && MoveCode(fx, x, t, i).Some?
    ensures Plain(MoveCode(fx, x, t, i).value)
  {
    hide SetSsa, OperandCode, PhiOperand;
    var op := PhiOperand(fx, x, t, i);
    if op.Some? {
      OperandPlain(fx, op.value);
      SetPlain(fx, i);
    }
  }

  lemma {:induction false} MovesPlain(fx: Fixture, x: nat, t: nat, hi: nat)
    requires hi <= |fx.stmts| && t < |fx.blocks| && MovesCode(fx, x, t, hi).Some?
    ensures Plain(MovesCode(fx, x, t, hi).value)
  {
    hide MoveCode;
    if hi > 0 {
      MovesPlain(fx, x, t, hi - 1);
      MovePlain(fx, x, t, hi - 1);
    }
  }

  /** Only the frame events have brackets in their code. */
  lemma EventPlain(fx: Fixture, e: R.Event)
    requires BlocksInside(fx) && EventCode(fx, e).Some?
    ensures !F.Opens(e) && !e.Close? && !e.ElseArm? ==> Plain(EventCode(fx, e).value)
    ensures e.OpenIf? ==> |EventCode(fx, e).value| == 2 && !OpensFrame(EventCode(fx, e).value[0]) && !EventCode(fx, e).value[0].End? && !EventCode(fx, e).value[0].Else? && EventCode(fx, e).value[1] == IfOpen
  {
    match e
    case Stmts(x) => StmtsPlain(fx, fx.blocks[x].first - 1, fx.blocks[x].last);
    case PhiMoves(x, t) => MovesPlain(fx, x, t, |fx.stmts|);
    case _ =>
  }

  /** The code of an event that is no bracket is skipped by a search for one. */
  lemma SkipsEvent(p: Listing, j: nat, d: nat)
    requires Laid(p) && j < |p.es| && !F.Opens(p.es[j]) && !p.es[j].Close?
    ensures EndOf(p.insns, p.at[j], d) == EndOf(p.insns, p.at[j + 1], d)
    ensures !p.es[j].ElseArm? || d > 0 ==> ElseOf(p.insns, p.at[j], d) == ElseOf(p.insns, p.at[j + 1], d)
  {
    hide EndOf, ElseOf;
    CodeAt(p, j);
    EventPlain(p.fx, p.es[j]);
    var c := EventCode(p.fx, p.es[j]).value;
    forall k | p.at[j] <= k < p.at[j + 1] ensures p.insns[k] == c[k - p.at[j]] {
      assert p.insns[p.at[j] + (k - p.at[j])] == c[k - p.at[j]];
    }
    SkipsPlain(p.insns, p.at[j], p.at[j + 1], d);
  }

  /** The code of an event that opens a frame opens one. */
  lemma EntersEvent(p: Listing, j: nat, d: nat)
    requires Laid(p) && j < |p.es| && F.Opens(p.es[j])
    ensures EndOf(p.insns, p.at[j], d) == EndOf(p.insns, p.at[j + 1], d + 1)
    ensures ElseOf(p.insns, p.at[j], d) == ElseOf(p.insns, p.at[j + 1], d + 1)
  {
    CodeAt(p, j);
    EventPlain(p.fx, p.es[j]);
    var c := EventCode(p.fx, p.es[j]).value;
    var i := p.at[j];
    assert p.insns[i + 0] == c[0];
    if p.es[j].OpenIf? {
      assert p.insns[i + 1] == c[1];
      assert EndOf(p.insns, i, d) == EndOf(p.insns, i + 1, d);
      assert ElseOf(p.insns, i, d) == ElseOf(p.insns, i + 1, d);
    }
  }

  lemma {:induction false} EndIsLaid(p: Listing, j: nat, d: nat)
    requires Laid(p) && j <= |p.es| && F.MatchEnd(p.es, j, d) < |p.es|
    ensures j <= F.MatchEnd(p.es, j, d) && p.es[F.MatchEnd(p.es, j, d)].Close?
    ensures EndOf(p.insns, p.at[j], d) == p.at[F.MatchEnd(p.es, j, d)]
    decreases |p.es| - j
  {
    hide EventCode, EndOf, Laid;
    F.MatchSteps(p.es, j, d);
    if F.Opens(p.es[j]) {
      EntersEvent(p, j, d);
      EndIsLaid(p, j + 1, d + 1);
    } else if !p.es[j].Close? {
      SkipsEvent(p, j, d);
      EndIsLaid(p, j + 1, d);
    } else {
      CloseIsEnd(p, j, d);
      if d > 0 { EndIsLaid(p, j + 1, d - 1); }
    }
  }

  lemma CloseIsEnd(p: Listing, j: nat, d: nat)
    requires Laid(p) && j < |p.es| && p.es[j].Close?
    ensures p.at[j + 1] == p.at[j] + 1 <= |p.insns| && p.insns[p.at[j]] == End
    ensures EndOf(p.insns, p.at[j], d) == if d == 0 then p.at[j] else EndOf(p.insns, p.at[j + 1], d - 1)
    ensures d > 0 ==> ElseOf(p.insns, p.at[j], d) == ElseOf(p.insns, p.at[j + 1], d - 1)
  {
    CodeAt(p, j);
    assert p.insns[p.at[j] + 0] == EventCode(p.fx, p.es[j]).value[0];
  }

  lemma {:induction false} ElseIsLaid(p: Listing, j: nat, d: nat)
    requires Laid(p) && j <= |p.es| && F.MatchElse(p.es, j, d) < |p.es| && p.es[F.MatchElse(p.es, j, d)].ElseArm?
    ensures ElseOf(p.insns, p.at[j], d) == p.at[F.MatchElse(p.es, j, d)]
    decreases |p.es| - j
  {
    hide EventCode, ElseOf, Laid;
    F.MatchSteps(p.es, j, d);
    if F.Opens(p.es[j]) {
      EntersEvent(p, j, d);
      ElseIsLaid(p, j + 1, d + 1);
    } else if p.es[j].Close? {
      CloseIsEnd(p, j, d);
      ElseIsLaid(p, j + 1, d - 1);
    } else if p.es[j].ElseArm? && d == 0 {
      ElseStands(p, j);
    } else {
      SkipsEvent(p, j, d);
      ElseIsLaid(p, j + 1, d);
    }
  }

  lemma ElseStands(p: Listing, j: nat)
    requires Laid(p) && j < |p.es| && p.es[j].ElseArm?
    ensures p.at[j + 1] == p.at[j] + 1 <= |p.insns| && p.insns[p.at[j]] == Else && ElseOf(p.insns, p.at[j], 0) == p.at[j]
  {
    CodeAt(p, j);
    assert p.insns[p.at[j] + 0] == EventCode(p.fx, p.es[j]).value[0];
  }

  // --- runs, and the blocks they enter -----------------------------------------------------------------

  /** The code of event `j`, not empty, is a block's statements and starts at `pc`. */
  ghost predicate Starts(p: Listing, j: nat, pc: nat) {
    j < |p.es| && j + 1 < |p.at| && p.es[j].Stmts? && p.at[j] == pc < p.at[j + 1]
  }

  /** The block whose statements start at `pc`, if any. */
  ghost function Mark(p: Listing, pc: nat): seq<nat> {
    if exists j: nat :: Starts(p, j, pc) then (var j: nat :| Starts(p, j, pc); [p.es[j].x]) else []
  }

  /** The blocks whose statements a run of `n` steps starts on. */
  ghost function Entered<W>(h: Host<W>, p: Listing, c: Run<W>, n: nat): seq<nat>
    decreases n
  {
    if n == 0 || !c.Running? then [] else Mark(p, c.pc) + Entered(h, p, StepInsn(h, p.insns, c), n - 1)
  }

  /** `n` steps lead from `c` to `c'` and start on the statements of `blocks`. */
  ghost predicate Goes<W>(h: Host<W>, p: Listing, c: Run<W>, n: nat, c': Run<W>, blocks: seq<nat>) {
    RunInsns(h, p.insns, c, n) == c' && Entered(h, p, c, n) == blocks
  }

  lemma {:induction false} GoesOn<W>(h: Host<W>, p: Listing, c: Run<W>, a: nat, c1: Run<W>, xs: seq<nat>, b: nat, c2: Run<W>, ys: seq<nat>)
    requires Goes(h, p, c, a, c1, xs) && Goes(h, p, c1, b, c2, ys)
    ensures Goes(h, p, c, a + b, c2, xs + ys)
    decreases a
  {
    hide StepInsn, Mark;
    if a == 0 {
      assert [] + ys == ys;
    } else if !c.Running? {
      StoppedStays(h, p.insns, c, a);
      StoppedStays(h, p.insns, c, b);
      StoppedStays(h, p.insns, c, a + b);
      assert xs == [] && ys == [];
    } else {
      var d := StepInsn(h, p.insns, c);
      var rest := Entered(h, p, d, a - 1);
      assert Goes(h, p, d, a - 1, c1, rest);
      GoesOn(h, p, d, a - 1, c1, rest, b, c2, ys);
      FirstOfMany(h, p, c, a + b);
      FirstOfMany(h, p, c, a);
      assert Mark(p, c.pc) + (rest + ys) == Mark(p, c.pc) + rest + ys;
    }
  }

  lemma FirstOfMany<W>(h: Host<W>, p: Listing, c: Run<W>, n: nat)
    requires n > 0 && c.Running?
    ensures RunInsns(h, p.insns, c, n) == RunInsns(h, p.insns, StepInsn(h, p.insns, c), n - 1)
    ensures Entered(h, p, c, n) == Mark(p, c.pc) + Entered(h, p, StepInsn(h, p.insns, c), n - 1)
  {
  }

  lemma OneStep<W>(h: Host<W>, p: Listing, c: Run<W>)
    requires c.Running?
    ensures Goes(h, p, c, 1, StepInsn(h, p.insns, c), Mark(p, c.pc))
  {
    var d := StepInsn(h, p.insns, c);
    assert RunInsns(h, p.insns, c, 1) == RunInsns(h, p.insns, d, 0);
    assert Entered(h, p, c, 1) == Mark(p, c.pc) + Entered(h, p, d, 0);
    assert Mark(p, c.pc) + [] == Mark(p, c.pc);
  }

  /** Inside the code of event `j` only its first instruction starts a block's statements. */
  lemma MarkInside(p: Listing, j: nat, pc: nat)
    requires Laid(p) && j < |p.es| && p.at[j] <= pc < p.at[j + 1]
    ensures Mark(p, pc) == if pc == p.at[j] && p.es[j].Stmts? then [p.es[j].x] else []
  {
    hide EventLaid;
    forall i: nat | Starts(p, i, pc) ensures i == j {
      if i < j { InOrder(p, i + 1, j); }
      if j < i { InOrder(p, j + 1, i); }
    }
    if pc == p.at[j] && p.es[j].Stmts? { assert Starts(p, j, pc); }
  }

  lemma MarkBefore(p: Listing, pc: nat)
    requires Laid(p) && pc < p.at[0]
    ensures Mark(p, pc) == []
  {
    hide EventLaid;
    forall i: nat | Starts(p, i, pc) ensures false {
      InOrder(p, 0, i);
    }
  }

  /** Straight-line code that runs, run in place. */
  lemma {:induction false} LineGoes<W>(h: Host<W>, p: Listing, pc: nat, code: seq<Insn>, stack: seq<Val>, labels: seq<Label>, m: Machine<W>)
    requires pc + |code| <= |p.insns| && (forall k :: 0 <= k < |code| ==> p.insns[pc + k] == code[k])
    requires RunLine(h, code, Line(stack, m)).Some?
    requires forall q: nat :: pc < q < pc + |code| ==> Mark(p, q) == []
    ensures var r := RunLine(h, code, Line(stack, m)).value;
            Goes(h, p, Running(pc, stack, labels, m), |code|, Running(pc + |code|, r.stack, labels, r.m), if code == [] then [] else Mark(p, pc))
    decreases |code|
  {
    hide Mark;
    if code != [] {
      assert p.insns[pc + 0] == code[0];
      var c, s := Running(pc, stack, labels, m), Step(h, code[0], Line(stack, m)).value;
      StepsPlain(h, p.insns, c);
      forall k | 0 <= k < |code[1..]| ensures p.insns[pc + 1 + k] == code[1..][k] {
        assert p.insns[pc + (k + 1)] == code[k + 1];
      }
      LineGoes(h, p, pc + 1, code[1..], s.stack, labels, s.m);
      var r := RunLine(h, code[1..], s).value;
      hide Goes, RunLine, Step, StepInsn;
      OneStep(h, p, c);
      GoesOn(h, p, c, 1, Running(pc + 1, s.stack, labels, s.m), Mark(p, pc), |code| - 1, Running(pc + |code|, r.stack, labels, r.m), []);
      assert Mark(p, pc) + [] == Mark(p, pc);
    }
  }

  lemma StepsPlain<W>(h: Host<W>, code: seq<Insn>, c: Run<W>)
    requires c.Running? && c.pc < |code| && Step(h, code[c.pc], Line(c.stack, c.m)).Some?
    ensures var s := Step(h, code[c.pc], Line(c.stack, c.m)).value;
            StepInsn(h, code, c) == Running(c.pc + 1, s.stack, c.labels, s.m)
  {
  }

  /** The first `|code|` instructions of event `j`, run from an empty stack. */
  lemma EventLine<W>(h: Host<W>, p: Listing, j: nat, code: seq<Insn>, labels: seq<Label>, m: Machine<W>)
    requires Laid(p) && j < |p.es| && EventCode(p.fx, p.es[j]).Some? && code <= EventCode(p.fx, p.es[j]).value
    requires RunLine(h, code, Line([], m)).Some?
    ensures var r := RunLine(h, code, Line([], m)).value;
            Goes(h, p, Running(p.at[j], [], labels, m), |code|, Running(p.at[j] + |code|, r.stack, labels, r.m),
                 if code != [] && p.es[j].Stmts? then [p.es[j].x] else [])
  {
    hide EventCode, Goes, RunLine, Mark;
    CodeAt(p, j);
    var c := EventCode(p.fx, p.es[j]).value;
    forall k | 0 <= k < |code| ensures p.insns[p.at[j] + k] == code[k] {
      assert c[k] == code[k];
    }
    forall q: nat | p.at[j] <= q < p.at[j] + |code|
      ensures Mark(p, q) == if q == p.at[j] && p.es[j].Stmts? then [p.es[j].x] else []
    {
      MarkInside(p, j, q);
    }
    LineGoes(h, p, p.at[j], code, [], labels, m);
  }

  // --- one event ---------------------------------------------------------------------------------------

  /** The label the machine keeps for a label of the event list. */
  function LabelOf(p: Listing, l: F.Label): Label
    requires |p.at| == |p.es| + 1 && LabelInside(p, l)
  {
    match l
    case Again(start) => Back(p.at[start], 0)
    case Past(end) => Ahead(p.at[end], 0)
  }

  predicate LabelInside(p: Listing, l: F.Label) {
    match l
    case Again(start) => start <= |p.es|
    case Past(end) => end <= |p.es|
  }

  ghost predicate LabelsLike(p: Listing, ls: seq<F.Label>, labels: seq<Label>)
    requires |p.at| == |p.es| + 1
  {
    |ls| == |labels| && forall k :: 0 <= k < |ls| ==> LabelInside(p, ls[k]) && labels[k] == LabelOf(p, ls[k])
  }

  /** The machine stands where the event list stands, with an empty operand stack, and represents its SSA state;
      or it has returned that state's result. */
  ghost predicate Like<W>(h: Host<W>, p: Listing, outer: seq<nat>, f: F.Flat<State<W>>, c: Run<W>)
    requires Laid(p)
  {
    match f
    case Going(j, ls, s, _) =>
      && j <= |p.es| && c.Running? && c.pc == p.at[j] && c.stack == [] && LabelsLike(p, ls, c.labels)
      && Represents(h, p.fx, outer, c.m, s)
    case Stopped(b, s, _) => b < |p.fx.blocks| && c.Done? && Finished(h, p.fx, outer, c.value, c.m, s, b)
    case Trapped => false
  }

  /** Blocks that leave instructions. */
  predicate HasCode(fx: Fixture, x: nat)
    requires BlocksInside(fx)
  {
    var c := EventCode(fx, R.Stmts(x)); c.Some? && c.value != []
  }

  function Visible(fx: Fixture, trace: seq<nat>): seq<nat>
    requires BlocksInside(fx)
  {
    if trace == [] then []
    else Visible(fx, trace[..|trace| - 1]) + if HasCode(fx, trace[|trace| - 1]) then [trace[|trace| - 1]] else []
  }

  /** The machine has matched `n` steps of the event list by `k` of its own, entering the blocks it entered; only
      events without instructions, which move the list's counter on, can make `k` the smaller. */
  ghost predicate Matched<W>(h: Host<W>, p: Listing, outer: seq<nat>, f: F.Flat<State<W>>, c: Run<W>, n: nat, f': F.Flat<State<W>>, k: nat)
    requires Laid(p)
  {
    && !f.Trapped? && !f'.Trapped?
    && Like(h, p, outer, f', RunInsns(h, p.insns, c, k))
    && Visible(p.fx, f'.trace) == Visible(p.fx, f.trace) + Entered(h, p, c, k)
    && (f'.Going? ==> f.Going? && n + f.pc <= k * (|p.es| + 1) + f'.pc)
  }

  lemma MatchedBy<W>(h: Host<W>, p: Listing, outer: seq<nat>, f: F.Flat<State<W>>, c: Run<W>, f': F.Flat<State<W>>, k: nat, c': Run<W>, blocks: seq<nat>)
    requires Laid(p) && f.Going? && f.pc < |p.es| && !f'.Trapped? && Goes(h, p, c, k, c', blocks) && Like(h, p, outer, f', c')
    requires Visible(p.fx, f'.trace) == Visible(p.fx, f.trace) + blocks && (f'.Going? ==> f.pc < f'.pc || 0 < k)
    ensures Matched(h, p, outer, f, c, 1, f', k)
  {
    hide EventLaid, Visible, RunInsns, Entered, Represents, Finished, LabelsLike;
    if k > 0 { Distributes(k - 1, 1, |p.es| + 1); }
  }

  lemma Distributes(a: nat, b: nat, c: nat)
    ensures (a + b) * c == a * c + b * c
    ensures 0 <= a * c
  {
  }

  lemma MatchedOn<W>(h: Host<W>, p: Listing, outer: seq<nat>, f: F.Flat<State<W>>, c: Run<W>, n: nat, f1: F.Flat<State<W>>, a: nat,
                     n': nat, f2: F.Flat<State<W>>, b: nat)
    requires Laid(p) && Matched(h, p, outer, f, c, n, f1, a) && Matched(h, p, outer, f1, RunInsns(h, p.insns, c, a), n', f2, b)
    ensures Matched(h, p, outer, f, c, n + n', f2, a + b)
  {
    hide EventLaid, Like, Visible, RunInsns, Entered;
    var c1 := RunInsns(h, p.insns, c, a);
    var xs, ys := Entered(h, p, c, a), Entered(h, p, c1, b);
    GoesOn(h, p, c, a, c1, xs, b, RunInsns(h, p.insns, c1, b), ys);
    Distributes(a, b, |p.es| + 1);
    var before := Visible(p.fx, f.trace);
    assert before + xs + ys == before + (xs + ys);
  }

  /** Straight-line code that takes the machine to a state representing `s`. */
  lemma LineMatched<W>(h: Host<W>, p: Listing, outer: seq<nat>, f: F.Flat<State<W>>, c: Run<W>, code: seq<Insn>, s: State<W>, trace: seq<nat>)
    requires Laid(p) && Like(h, p, outer, f, c) && f.Going? && f.pc < |p.es| && EventCode(p.fx, p.es[f.pc]) == Some(code)
    requires Realizes(h, p.fx, outer, code, c.m, s)
    requires Visible(p.fx, trace) == Visible(p.fx, f.trace) + if code != [] && p.es[f.pc].Stmts? then [p.es[f.pc].x] else []
    ensures Matched(h, p, outer, f, c, 1, F.Going(f.pc + 1, f.labels, s, trace), |code|)
  {
    hide Represents, RunLine, Goes, EventCode, Visible, EventLaid, LabelsLike, Matched;
    CodeAt(p, f.pc);
    EventLine(h, p, f.pc, code, c.labels, c.m);
    var r := RunLine(h, code, Line([], c.m)).value;
    MatchedBy(h, p, outer, f, c, F.Going(f.pc + 1, f.labels, s, trace), |code|, Running(p.at[f.pc + 1], [], c.labels, r.m),
              if code != [] && p.es[f.pc].Stmts? then [p.es[f.pc].x] else []);
  }

  lemma VisibleAppend(fx: Fixture, trace: seq<nat>, x: nat)
    requires BlocksInside(fx)
    ensures Visible(fx, trace + [x]) == Visible(fx, trace) + if HasCode(fx, x) then [x] else []
  {
    assert (trace + [x])[..|trace|] == trace;
  }

  lemma StmtsMatched<W(!new)>(h: Host<W>, p: Listing, outer: seq<nat>, f: F.Flat<State<W>>, c: Run<W>) returns (k: nat)
    requires HostOk(h) && Typed(p.fx) && Laid(p) && Like(h, p, outer, f, c) && f.Going? && f.pc < |p.es| && p.es[f.pc].Stmts?
    ensures Matched(h, p, outer, f, c, 1, F.StepFlat(SsaLeaves(h, p.fx, outer), p.es, f), k)
  {
    hide RunLine, StmtsCode, RunStmts, EventLaid, LabelsLike, Matched, StmtTyped, HostOk, Realizes, Visible;
    CodeAt(p, f.pc);
    var x, s := p.es[f.pc].x, f.state;
    var lo, hi := p.fx.blocks[x].first - 1, p.fx.blocks[x].last;
    StmtsRun(h, p.fx, outer, c.m, s, lo, hi);
    var code := StmtsCode(p.fx, lo, hi).value;
    VisibleAppend(p.fx, f.trace, x);
    LineMatched(h, p, outer, f, c, code, RunStmts(h, outer, p.fx, s, lo, hi), f.trace + [x]);
    k := |code|;
  }

  lemma MovesMatched<W(!new)>(h: Host<W>, p: Listing, outer: seq<nat>, f: F.Flat<State<W>>, c: Run<W>) returns (k: nat)
    requires Typed(p.fx) && Laid(p) && Like(h, p, outer, f, c) && f.Going? && f.pc < |p.es| && p.es[f.pc].PhiMoves?
    ensures Matched(h, p, outer, f, c, 1, F.StepFlat(SsaLeaves(h, p.fx, outer), p.es, f), k)
  {
    hide RunLine, EdgeCode, TakeEdge, EventLaid, LabelsLike, Matched, StmtTyped, Realizes, Visible;
    CodeAt(p, f.pc);
    var x, t, s := p.es[f.pc].x, p.es[f.pc].target, f.state;
    EdgeRuns(h, p.fx, outer, c.m, s, x, t);
    var code := EdgeCode(p.fx, x, t).value;
    LineMatched(h, p, outer, f, c, code, TakeEdge(p.fx, s, x, t), f.trace);
    k := |code|;
  }

  /** A frame event is one instruction, or ends in one, that starts no block. */
  lemma FrameStep<W>(h: Host<W>, p: Listing, j: nat, c: Run<W>)
    requires Laid(p) && j < |p.es| && c.Running? && p.at[j] <= c.pc < p.at[j + 1] && !p.es[j].Stmts?
    ensures Goes(h, p, c, 1, StepInsn(h, p.insns, c), [])
  {
    hide Goes, StepInsn, Mark;
    OneStep(h, p, c);
    MarkInside(p, j, c.pc);
  }

  /** The only instruction of an event, where it stands. */
  lemma OnlyInsn(p: Listing, j: nat)
    requires Laid(p) && j < |p.es| && EventCode(p.fx, p.es[j]).Some? && |EventCode(p.fx, p.es[j]).value| == 1
    ensures p.at[j + 1] == p.at[j] + 1 <= |p.insns| && p.insns[p.at[j]] == EventCode(p.fx, p.es[j]).value[0]
  {
    hide EventCode;
    CodeAt(p, j);
    assert p.insns[p.at[j] + 0] == EventCode(p.fx, p.es[j]).value[0];
  }

  lemma PushLike(p: Listing, ls: seq<F.Label>, labels: seq<Label>, l: F.Label)
    requires |p.at| == |p.es| + 1 && LabelsLike(p, ls, labels) && LabelInside(p, l)
    ensures LabelsLike(p, ls + [l], labels + [LabelOf(p, l)])
  {
  }

  lemma OpenMatched<W>(h: Host<W>, p: Listing, outer: seq<nat>, f: F.Flat<State<W>>, c: Run<W>) returns (k: nat)
    requires Laid(p) && Like(h, p, outer, f, c) && f.Going? && f.pc < |p.es| && (p.es[f.pc].OpenLoop? || p.es[f.pc].OpenBlock?)
    requires !F.StepFlat(SsaLeaves(h, p.fx, outer), p.es, f).Trapped?
    ensures Matched(h, p, outer, f, c, 1, F.StepFlat(SsaLeaves(h, p.fx, outer), p.es, f), k)
  {
    hide Represents, Mark, EventLaid, LabelsLike;
    k := 1;
    var j := f.pc;
    OnlyInsn(p, j);
    FrameStep(h, p, j, c);
    var f' := F.StepFlat(SsaLeaves(h, p.fx, outer), p.es, f);
    if p.es[j].OpenLoop? {
      PushLike(p, f.labels, c.labels, F.Again(j + 1));
    } else {
      var e := F.MatchEnd(p.es, j + 1, 0);
      EndIsLaid(p, j + 1, 0);
      CloseIsEnd(p, e, 0);
      PushLike(p, f.labels, c.labels, F.Past(e + 1));
    }
    MatchedBy(h, p, outer, f, c, f', k, StepInsn(h, p.insns, c), []);
  }

  lemma CloseMatched<W>(h: Host<W>, p: Listing, outer: seq<nat>, f: F.Flat<State<W>>, c: Run<W>) returns (k: nat)
    requires Laid(p) && Like(h, p, outer, f, c) && f.Going? && f.pc < |p.es| && (p.es[f.pc].Close? || p.es[f.pc].ElseArm?)
    requires !F.StepFlat(SsaLeaves(h, p.fx, outer), p.es, f).Trapped?
    ensures Matched(h, p, outer, f, c, 1, F.StepFlat(SsaLeaves(h, p.fx, outer), p.es, f), k)
  {
    hide Represents, Mark, EventLaid;
    k := 1;
    var j := f.pc;
    OnlyInsn(p, j);
    FrameStep(h, p, j, c);
    var f' := F.StepFlat(SsaLeaves(h, p.fx, outer), p.es, f);
    if p.es[j].ElseArm? {
      var e := F.MatchEnd(p.es, j + 1, 0);
      EndIsLaid(p, j + 1, 0);
      CloseIsEnd(p, e, 0);
    }
    MatchedBy(h, p, outer, f, c, f', k, StepInsn(h, p.insns, c), []);
  }

  lemma BrMatched<W>(h: Host<W>, p: Listing, outer: seq<nat>, f: F.Flat<State<W>>, c: Run<W>) returns (k: nat)
    requires Laid(p) && Like(h, p, outer, f, c) && f.Going? && f.pc < |p.es| && p.es[f.pc].Br?
    requires !F.StepFlat(SsaLeaves(h, p.fx, outer), p.es, f).Trapped?
    ensures Matched(h, p, outer, f, c, 1, F.StepFlat(SsaLeaves(h, p.fx, outer), p.es, f), k)
  {
    hide Represents, Mark, EventLaid;
    k := 1;
    var j := f.pc;
    OnlyInsn(p, j);
    FrameStep(h, p, j, c);
    var f' := F.StepFlat(SsaLeaves(h, p.fx, outer), p.es, f);
    MatchedBy(h, p, outer, f, c, f', k, StepInsn(h, p.insns, c), []);
  }

  /** An if's condition is pushed, and `IfOpen` comes next. */
  lemma CondGoes<W>(h: Host<W>, p: Listing, outer: seq<nat>, j: nat, s: State<W>, labels: seq<Label>, m: Machine<W>) returns (v: nat)
    requires Typed(p.fx) && Laid(p) && Represents(h, p.fx, outer, m, s) && j < |p.es| && p.es[j].OpenIf?
    ensures v != 0 <==> SsaLeaves(h, p.fx, outer).cond(p.es[j].x, s)
    ensures p.at[j + 1] == p.at[j] + 2 <= |p.insns| && p.insns[p.at[j] + 1] == IfOpen
    ensures Goes(h, p, Running(p.at[j], [], labels, m), 1, Running(p.at[j] + 1, [I32(v)], labels, m), [])
  {
    hide Mark, EventLaid, RunLine, Typed, Represents, Goes;
    var x := p.es[j].x;
    CodeAt(p, j);
    var code := EventCode(p.fx, p.es[j]).value;
    CondRuns(h, p.fx, outer, m, s, x);
    v :| Pushes(h, code[0], m, I32(v)) && (v != 0 <==> Condition(p.fx, s, x));
    PushThen(h, code[0], [], m, I32(v), []);
    RunNothing(h, Line([] + [I32(v)], m));
    assert [code[0]] + [] == [code[0]] && [] + [I32(v)] == [I32(v)];
    EventLine(h, p, j, [code[0]], labels, m);
    assert p.insns[p.at[j] + 1] == code[1];
  }

  /** `IfOpen` enters the arm its operand chooses. */
  lemma IfSteps<W>(h: Host<W>, p: Listing, j: nat, v: nat, labels: seq<Label>, m: Machine<W>)
    requires Laid(p) && j < |p.es| && p.at[j + 1] == p.at[j] + 2 <= |p.insns| && p.insns[p.at[j] + 1] == IfOpen
    requires F.MatchEnd(p.es, j + 1, 0) < |p.es| && F.MatchElse(p.es, j + 1, 0) < |p.es| && p.es[F.MatchElse(p.es, j + 1, 0)].ElseArm?
    ensures var e, a := F.MatchEnd(p.es, j + 1, 0), F.MatchElse(p.es, j + 1, 0);
            StepInsn(h, p.insns, Running(p.at[j] + 1, [I32(v)], labels, m)) ==
            Running(p.at[if v != 0 then j + 1 else a + 1], [], labels + [Ahead(p.at[e + 1], 0)], m)
  {
    hide EventLaid, EndOf, ElseOf, F.MatchEnd, F.MatchElse;
    EndIsLaid(p, j + 1, 0);
    CloseIsEnd(p, F.MatchEnd(p.es, j + 1, 0), 0);
    ElseIsLaid(p, j + 1, 0);
    ElseStands(p, F.MatchElse(p.es, j + 1, 0));
  }

  lemma IfMatched<W>(h: Host<W>, p: Listing, outer: seq<nat>, f: F.Flat<State<W>>, c: Run<W>) returns (k: nat)
    requires Typed(p.fx) && Laid(p) && Like(h, p, outer, f, c) && f.Going? && f.pc < |p.es| && p.es[f.pc].OpenIf?
    requires !F.StepFlat(SsaLeaves(h, p.fx, outer), p.es, f).Trapped?
    ensures Matched(h, p, outer, f, c, 1, F.StepFlat(SsaLeaves(h, p.fx, outer), p.es, f), k)
  {
    hide Mark, EventLaid, LabelsLike, Typed, Represents, F.MatchEnd, F.MatchElse, StepInsn, Goes, Matched, SsaLeaves;
    k := 2;
    var j := f.pc;
    var v := CondGoes(h, p, outer, j, f.state, c.labels, c.m);
    var c1 := Running(p.at[j] + 1, [I32(v)], c.labels, c.m);
    IfSteps(h, p, j, v, c.labels, c.m);
    FrameStep(h, p, j, c1);
    PushLike(p, f.labels, c.labels, F.Past(F.MatchEnd(p.es, j + 1, 0) + 1));
    var none: seq<nat> := [];
    GoesOn(h, p, c, 1, c1, none, 1, StepInsn(h, p.insns, c1), none);
    assert none + none == none;
    MatchedBy(h, p, outer, f, c, F.StepFlat(SsaLeaves(h, p.fx, outer), p.es, f), k, StepInsn(h, p.insns, c1), []);
  }

  lemma RetMatched<W>(h: Host<W>, p: Listing, outer: seq<nat>, f: F.Flat<State<W>>, c: Run<W>) returns (k: nat)
    requires Typed(p.fx) && Laid(p) && Like(h, p, outer, f, c) && f.Going? && f.pc < |p.es| && p.es[f.pc].Ret?
    ensures var f' := F.StepFlat(SsaLeaves(h, p.fx, outer), p.es, f); !f'.Trapped? && Matched(h, p, outer, f, c, 1, f', k)
  {
    hide Mark, EventLaid, RunLine, Typed, Represents, Finished;
    var j, x := f.pc, p.es[f.pc].x;
    CodeAt(p, j);
    var code, ret := EventCode(p.fx, p.es[j]).value, RetCode(p.fx, x).value;
    ReturnRuns(h, p.fx, outer, c.m, f.state, x);
    var r := RunLine(h, ret, Line([], c.m)).value;
    EventLine(h, p, j, ret, c.labels, c.m);
    var c1 := Running(p.at[j] + |ret|, r.stack, c.labels, r.m);
    assert p.insns[p.at[j] + |ret|] == code[|ret|];
    FrameStep(h, p, j, c1);
    k := |ret| + 1;
    var f' := F.StepFlat(SsaLeaves(h, p.fx, outer), p.es, f);
    GoesOn(h, p, c, |ret|, c1, [], 1, Done(r.stack[0], r.m), []);
    MatchedBy(h, p, outer, f, c, f', k, Done(r.stack[0], r.m), []);
  }

  lemma EventMatched<W(!new)>(h: Host<W>, p: Listing, outer: seq<nat>, f: F.Flat<State<W>>, c: Run<W>) returns (k: nat)
    requires HostOk(h) && Typed(p.fx) && Laid(p) && Like(h, p, outer, f, c) && f.Going?
    requires !F.StepFlat(SsaLeaves(h, p.fx, outer), p.es, f).Trapped?
    ensures Matched(h, p, outer, f, c, 1, F.StepFlat(SsaLeaves(h, p.fx, outer), p.es, f), k)
  {
    assert f.pc < |p.es|;
    hide Laid, Like, Typed, HostOk, Matched, SsaLeaves;
    match p.es[f.pc]
    case Stmts(_) => k := StmtsMatched(h, p, outer, f, c);
    case PhiMoves(_, _) => k := MovesMatched(h, p, outer, f, c);
    case OpenIf(_) => k := IfMatched(h, p, outer, f, c);
    case Ret(_) => k := RetMatched(h, p, outer, f, c);
    case Br(_) => k := BrMatched(h, p, outer, f, c);
    case OpenLoop(_) => k := OpenMatched(h, p, outer, f, c);
    case OpenBlock(_) => k := OpenMatched(h, p, outer, f, c);
    case Close => k := CloseMatched(h, p, outer, f, c);
    case ElseArm => k := CloseMatched(h, p, outer, f, c);
  }

  // --- whole runs ----------------------------------------------------------------------------------------

  lemma {:induction false} FlatStays<S>(sem: G.Leaves<S>, es: seq<R.Event>, f: F.Flat<S>, n: nat)
    requires !f.Going?
    ensures F.RunFlat(sem, es, f, n) == f
    decreases n
  {
    if n > 0 { FlatStays(sem, es, f, n - 1); }
  }

  /** Every run of the event list that does not trap is matched by a run of the instructions. */
  lemma {:induction false} RunMatched<W(!new)>(h: Host<W>, p: Listing, outer: seq<nat>, f: F.Flat<State<W>>, c: Run<W>, n: nat) returns (k: nat)
    requires HostOk(h) && Typed(p.fx) && Laid(p) && Like(h, p, outer, f, c)
    requires !F.RunFlat(SsaLeaves(h, p.fx, outer), p.es, f, n).Trapped?
    ensures Matched(h, p, outer, f, c, n, F.RunFlat(SsaLeaves(h, p.fx, outer), p.es, f, n), k)
    decreases n
  {
    hide HostOk, Typed, EventLaid, SsaLeaves, F.StepFlat, Matched, Like;
    k := 0;
    if n == 0 || !f.Going? {
      NothingMatched(h, p, outer, f, c, n);
    } else {
      var f1 := F.StepFlat(SsaLeaves(h, p.fx, outer), p.es, f);
      if f1.Trapped? { FlatStays(SsaLeaves(h, p.fx, outer), p.es, f1, n - 1); }
      var a := EventMatched(h, p, outer, f, c);
      MatchedLike(h, p, outer, f, c, 1, f1, a);
      var b := RunMatched(h, p, outer, f1, RunInsns(h, p.insns, c, a), n - 1);
      MatchedOn(h, p, outer, f, c, 1, f1, a, n - 1, F.RunFlat(SsaLeaves(h, p.fx, outer), p.es, f1, n - 1), b);
      k := a + b;
    }
  }

  lemma MatchedLike<W>(h: Host<W>, p: Listing, outer: seq<nat>, f: F.Flat<State<W>>, c: Run<W>, n: nat, f': F.Flat<State<W>>, k: nat)
    requires Laid(p) && Matched(h, p, outer, f, c, n, f', k)
    ensures Like(h, p, outer, f', RunInsns(h, p.insns, c, k)) && !f'.Trapped?
  {
  }

  lemma NothingMatched<W>(h: Host<W>, p: Listing, outer: seq<nat>, f: F.Flat<State<W>>, c: Run<W>, n: nat)
    requires Laid(p) && Like(h, p, outer, f, c) && (n == 0 || !f.Going?)
    ensures Matched(h, p, outer, f, c, n, F.RunFlat(SsaLeaves(h, p.fx, outer), p.es, f, n), 0)
  {
    hide EventLaid, Represents, Finished, LabelsLike, Visible;
    if n > 0 { FlatStays(SsaLeaves(h, p.fx, outer), p.es, f, n); }
  }

  // --- the emitted function ------------------------------------------------------------------------------

  /** The machine after `k` steps of a call of the emitted function. */
  function EmittedAt<W>(h: Host<W>, insns: seq<Insn>, m: Machine<W>, k: nat): Run<W> {
    RunInsns(h, insns, Running(0, [], [], m), k)
  }

  /** The IR after `n` blocks, by the meaning of its nodes. */
  ghost function IrAt<W>(h: Host<W>, fx: Fixture, g: Cfg, outer: seq<nat>, args: seq<Val>, w: W, n: nat): G.GraphRun<State<W>>
    requires BlocksInside(fx) && |fx.blocks| == g.N() && 0 < g.N()
  {
    RunIr(h, outer, fx, g, 0, InitialState(fx, args, w), n)
  }

  lemma IrAtIsGraph<W>(h: Host<W>, fx: Fixture, g: Cfg, order: seq<nat>, s: Shape, code: R.Code, body: seq<Insn>, outer: seq<nat>, args: seq<Val>, w: W, n: nat)
    requires Typed(fx) && EmittedBody(fx, g, order, s, code, body)
    ensures 0 < g.N() && G.InRange(Terms(fx, g))
    ensures IrAt(h, fx, g, outer, args, w, n) == G.RunGraph(SsaLeaves(h, fx, outer), Terms(fx, g), 0, InitialState(fx, args, w), n)
  {
    hide ShapeOf, R.DoTree, EventsCode, StmtTyped, G.RunGraph, RunIr, SsaLeaves, TermOf;
    EmittedBodyHasEdges(fx, g, order, s, code, body);
    IrIsGraph(h, fx, g, outer, 0, InitialState(fx, args, w), n);
  }

  /** A run of the IR that has halted is the same at every later count. */
  lemma IrHaltIsFinal<W>(h: Host<W>, fx: Fixture, g: Cfg, order: seq<nat>, s: Shape, code: R.Code, body: seq<Insn>, outer: seq<nat>, args: seq<Val>, w: W, n: nat, m: nat)
    requires Typed(fx) && EmittedBody(fx, g, order, s, code, body)
    requires 0 < g.N() && IrAt(h, fx, g, outer, args, w, n).end.Halted?
    ensures var r := IrAt(h, fx, g, outer, args, w, m); if r.end.Halted? then r == IrAt(h, fx, g, outer, args, w, n) else m < n
  {
    hide R.Setting, R.DoTree, EventsCode, StmtTyped, G.RunGraph, IrAt, SsaLeaves, TermOf, G.InRange;
    IrAtIsGraph(h, fx, g, order, s, code, body, outer, args, w, n);
    IrAtIsGraph(h, fx, g, order, s, code, body, outer, args, w, m);
    G.HaltIsFinal(SsaLeaves(h, fx, outer), Terms(fx, g), 0, InitialState(fx, args, w), n, m);
  }

  /** The blocks with instructions that a call of the emitted function has started on. */
  ghost function EnteredBy<W>(h: Host<W>, fx: Fixture, code: R.Code, insns: seq<Insn>, m: Machine<W>, k: nat): seq<nat>
    requires BlocksInside(fx)
  {
    Entered(h, ListingOf(fx, R.Flatten(code), insns), Running(0, [], [], m), k)
  }

  lemma PrologueGoes<W>(h: Host<W>, fx: Fixture, p: Listing, outer: seq<nat>, m: Machine<W>, args: seq<Val>) returns (m1: Machine<W>)
    requires Typed(fx) && Entry(h, fx, outer, m, args) && Laid(p) && p.fx == fx && p.at[0] == |Prologue(fx)| && Prologue(fx) <= p.insns
    ensures Goes(h, p, Running(0, [], [], m), p.at[0], Running(p.at[0], [], [], m1), [])
    ensures Represents(h, fx, outer, m1, InitialState(fx, args, m.world))
  {
    hide Typed, Entry, Represents, RunLine, Prologue, EventLaid, Goes, Mark;
    PrologueRuns(h, fx, outer, m, args);
    m1 := RunLine(h, Prologue(fx), Line([], m)).value.m;
    forall q: nat | q < p.at[0] ensures Mark(p, q) == [] { MarkBefore(p, q); }
    LineGoes(h, p, 0, Prologue(fx), [], [], m);
  }

  /** What the walk's event list does, with the IR's meaning of the leaves. */
  lemma ListFollows<W>(h: Host<W>, fx: Fixture, g: Cfg, order: seq<nat>, s: Shape, code: R.Code, body: seq<Insn>,
                       outer: seq<nat>, st: State<W>, fuel: nat)
    returns (steps: nat, f: F.Flat<State<W>>)
    requires Typed(fx) && EmittedBody(fx, g, order, s, code, body)
    ensures |fx.blocks| == g.N() && 0 < g.N() && G.InRange(Terms(fx, g)) && EventsCode(fx, R.Flatten(code)) == Some(body)
    ensures f == F.RunFlat(SsaLeaves(h, fx, outer), R.Flatten(code), F.Going(0, [], st, []), steps) && !f.Trapped?
    ensures var r := G.RunGraph(SsaLeaves(h, fx, outer), Terms(fx, g), 0, st, |f.trace|);
            && r.trace == f.trace && r.end.state == f.state
            && if f.Stopped? then r.end == G.Halted(f.block, f.state) else r.end.At? && fuel < steps && fuel < |f.trace|
  {
    hide StmtTyped, R.Setting, G.RunGraph, F.RunFlat, SsaLeaves, R.Flatten, R.DoTree, TermOf, EventsCode;
    steps := F.FlatFollowsGraph(g, order, s, Terms(fx, g), SsaLeaves(h, fx, outer), st, [], fuel);
    assert R.Flatten(code) + [] == R.Flatten(code);
    f := F.RunFlat(SsaLeaves(h, fx, outer), R.Flatten(code), F.Going(0, [], st, []), steps);
  }

  /** More steps of the list than the allowance, at `size` events a step, are more steps of the machine. */
  lemma StepsSuffice(allowance: nat, size: nat, steps: nat, pc: nat, k: nat)
    requires (allowance + 1) * (size + 1) < steps <= k * (size + 1) + pc && pc <= size
    ensures allowance < k && allowance < (allowance + 1) * (size + 1)
  {
    if k <= allowance {
      Distributes(allowance - k, k + 1, size + 1);
      Distributes(k, 1, size + 1);
    }
    Distributes(allowance, 1, size + 1);
    Distributes(size, 1, allowance);
  }

  ghost predicate AsTheIr<W>(h: Host<W>, fx: Fixture, outer: seq<nat>, c: Run<W>, end: G.Config<State<W>>)
    requires BlocksInside(fx)
  {
    match c
    case Running(_, stack, _, m) => end.At? && stack == [] && Represents(h, fx, outer, m, end.state)
    case Done(v, m) => end.Halted? && end.block < |fx.blocks| && Finished(h, fx, outer, v, m, end.state, end.block)
    case Trap => false
  }

  /** Runs of the emitted function and of the IR, for any allowance: the function has returned what the IR returns, with
      the IR's world and every local at its IR value, having started on the same blocks; or it is still going after
      more steps than the allowance, and represents the state the IR is in after more blocks than the allowance. */
  lemma EmittedFollowsIr<W(!new)>(h: Host<W>, fx: Fixture, g: Cfg, order: seq<nat>, s: Shape, code: R.Code, body: seq<Insn>,
                                  outer: seq<nat>, m: Machine<W>, args: seq<Val>, allowance: nat)
    returns (k: nat, n: nat)
    requires HostOk(h) && Typed(fx) && EmittedBody(fx, g, order, s, code, body) && Entry(h, fx, outer, m, args)
    ensures 0 < g.N()
    ensures var r := IrAt(h, fx, g, outer, args, m.world, n);
            && AsTheIr(h, fx, outer, EmittedAt(h, Whole(fx, body), m, k), r.end)
            && EnteredBy(h, fx, code, Whole(fx, body), m, k) == Visible(fx, r.trace)
            && (r.end.At? ==> allowance < k && allowance < n)
  {
    hide HostOk, EmittedBody, Entry, Represents, Finished, G.RunGraph, F.RunFlat, RunInsns, Entered, EventLaid, Prologue, R.Flatten;
    hide SsaLeaves, Visible, InitialState, StmtTyped, G.InRange, LabelsLike, EventsCode, Goes;
    var es, st := R.Flatten(code), InitialState(fx, args, m.world);
    var fuel := (allowance + 1) * (|es| + 1);
    var steps, f := ListFollows(h, fx, g, order, s, code, body, outer, st, fuel);
    var p := ListingOf(fx, es, Whole(fx, body));
    ListingIsLaid(fx, es, body);
    var m1 := PrologueGoes(h, fx, p, outer, m, args);
    var k1;
    k, k1 := CallMatched(h, p, outer, m, m1, st, f, steps);
    n := |f.trace|;
    IrAtIsGraph(h, fx, g, order, s, code, body, outer, args, m.world, n);
    if f.Going? { StepsSuffice(allowance, |es|, steps, f.pc, k1); }
  }

  /** From the call through the prologue to where the list's run ends. */
  lemma CallMatched<W(!new)>(h: Host<W>, p: Listing, outer: seq<nat>, m: Machine<W>, m1: Machine<W>, st: State<W>, f: F.Flat<State<W>>, steps: nat)
    returns (k: nat, k1: nat)
    requires HostOk(h) && Typed(p.fx) && Laid(p) && Represents(h, p.fx, outer, m1, st)
    requires Goes(h, p, Running(0, [], [], m), p.at[0], Running(p.at[0], [], [], m1), [])
    requires f == F.RunFlat(SsaLeaves(h, p.fx, outer), p.es, F.Going(0, [], st, []), steps) && !f.Trapped?
    ensures k1 <= k && Like(h, p, outer, f, RunInsns(h, p.insns, Running(0, [], [], m), k))
    ensures Entered(h, p, Running(0, [], [], m), k) == Visible(p.fx, f.trace)
    ensures f.Going? ==> f.pc <= |p.es| && steps <= k1 * (|p.es| + 1) + f.pc
  {
    hide HostOk, Typed, Represents, F.RunFlat, RunInsns, Entered, EventLaid, SsaLeaves;
    var c0, c1 := Running(0, [], [], m), Running(p.at[0], [], [], m1);
    k1 := RunMatched(h, p, outer, F.Going(0, [], st, []), c1, steps);
    k := p.at[0] + k1;
    GoesOn(h, p, c0, p.at[0], c1, [], k1, RunInsns(h, p.insns, c1, k1), Entered(h, p, c1, k1));
    assert [] + Entered(h, p, c1, k1) == Entered(h, p, c1, k1);
  }

  /** Of two step counts, a run stopped at the one is as it was at the other once it is later. */
  lemma StopIsFinal<W>(h: Host<W>, p: Listing, c: Run<W>, a: nat, b: nat)
    requires a <= b && !RunInsns(h, p.insns, c, a).Running?
    ensures RunInsns(h, p.insns, c, b) == RunInsns(h, p.insns, c, a) && Entered(h, p, c, b) == Entered(h, p, c, a)
  {
    hide RunInsns, Entered;
    var c1 := RunInsns(h, p.insns, c, a);
    StoppedStays(h, p.insns, c1, b - a);
    EntersNoMore(h, p, c1, b - a);
    GoesOn(h, p, c, a, c1, Entered(h, p, c, a), b - a, c1, []);
    assert Entered(h, p, c, a) + [] == Entered(h, p, c, a);
  }

  lemma EntersNoMore<W>(h: Host<W>, p: Listing, c: Run<W>, n: nat)
    requires !c.Running?
    ensures Entered(h, p, c, n) == []
  {
  }

  /** No step of a call of the emitted function traps. */
  lemma EmittedNeverTraps<W(!new)>(h: Host<W>, fx: Fixture, g: Cfg, order: seq<nat>, s: Shape, code: R.Code, body: seq<Insn>,
                                   outer: seq<nat>, m: Machine<W>, args: seq<Val>, k: nat)
    requires HostOk(h) && Typed(fx) && EmittedBody(fx, g, order, s, code, body) && Entry(h, fx, outer, m, args)
    ensures !EmittedAt(h, Whole(fx, body), m, k).Trap?
  {
    hide HostOk, EmittedBody, Entry, Represents, Finished, RunInsns, Entered, R.Flatten, Visible, IrAt, G.InRange, StmtTyped;
    var k1, n := EmittedFollowsIr(h, fx, g, order, s, code, body, outer, m, args, k);
    var p, c := ListingOf(fx, R.Flatten(code), Whole(fx, body)), Running(0, [], [], m);
    if k <= k1 {
      if EmittedAt(h, Whole(fx, body), m, k).Trap? { StopIsFinal(h, p, c, k, k1); }
    } else {
      StopIsFinal(h, p, c, k1, k);
    }
  }

  /** A call returns exactly when the IR halts. */
  lemma EmittedReturnsIffIrHalts<W(!new)>(h: Host<W>, fx: Fixture, g: Cfg, order: seq<nat>, s: Shape, code: R.Code, body: seq<Insn>,
                                          outer: seq<nat>, m: Machine<W>, args: seq<Val>)
    requires HostOk(h) && Typed(fx) && EmittedBody(fx, g, order, s, code, body) && Entry(h, fx, outer, m, args)
    ensures 0 < g.N()
    ensures (exists k: nat :: EmittedAt(h, Whole(fx, body), m, k).Done?) <==> (exists n: nat :: IrAt(h, fx, g, outer, args, m.world, n).end.Halted?)
  {
    hide HostOk, R.Setting, R.DoTree, EventsCode, Entry, Represents, Finished, RunInsns, Entered, R.Flatten, Visible, G.InRange, StmtTyped, G.RunGraph, SsaLeaves;
    var _, _ := EmittedFollowsIr(h, fx, g, order, s, code, body, outer, m, args, 0);
    if k: nat :| EmittedAt(h, Whole(fx, body), m, k).Done? {
      var k1, n := EmittedFollowsIr(h, fx, g, order, s, code, body, outer, m, args, k);
      if k <= k1 { StopIsFinal(h, ListingOf(fx, R.Flatten(code), Whole(fx, body)), Running(0, [], [], m), k, k1); }
      assert IrAt(h, fx, g, outer, args, m.world, n).end.Halted?;
    }
    if n: nat :| IrAt(h, fx, g, outer, args, m.world, n).end.Halted? {
      var k1, n1 := EmittedFollowsIr(h, fx, g, order, s, code, body, outer, m, args, n);
      IrHaltIsFinal(h, fx, g, order, s, code, body, outer, args, m.world, n, n1);
      assert EmittedAt(h, Whole(fx, body), m, k1).Done?;
    }
  }

  /** What a call returns is what the IR returns: the result, the world, every parameter and SSA local, and the
      callers' shadow stack, after starting on the same blocks in the same order. */
  lemma EmittedReturnsIrResult<W(!new)>(h: Host<W>, fx: Fixture, g: Cfg, order: seq<nat>, s: Shape, code: R.Code, body: seq<Insn>,
                                        outer: seq<nat>, m: Machine<W>, args: seq<Val>, k: nat, n: nat)
    requires HostOk(h) && Typed(fx) && EmittedBody(fx, g, order, s, code, body) && Entry(h, fx, outer, m, args)
    requires 0 < g.N()
    requires EmittedAt(h, Whole(fx, body), m, k).Done? && IrAt(h, fx, g, outer, args, m.world, n).end.Halted?
    ensures var c, r := EmittedAt(h, Whole(fx, body), m, k), IrAt(h, fx, g, outer, args, m.world, n);
            && r.end.block < |fx.blocks| && Finished(h, fx, outer, c.value, c.m, r.end.state, r.end.block)
            && EnteredBy(h, fx, code, Whole(fx, body), m, k) == Visible(fx, r.trace)
  {
    hide HostOk, R.Setting, R.DoTree, EventsCode, Entry, Represents, Finished, RunInsns, Entered, R.Flatten, Visible, G.InRange, StmtTyped, G.RunGraph, SsaLeaves;
    var k1, n1 := EmittedFollowsIr(h, fx, g, order, s, code, body, outer, m, args, n);
    IrHaltIsFinal(h, fx, g, order, s, code, body, outer, args, m.world, n, n1);
    var p, c := ListingOf(fx, R.Flatten(code), Whole(fx, body)), Running(0, [], [], m);
    if k <= k1 { StopIsFinal(h, p, c, k, k1); } else { StopIsFinal(h, p, c, k1, k); }
  }

  /** A call never traps, returns exactly when the IR halts, and then returns what the IR returns, after starting on
      the same blocks. */
  ghost predicate CallIsIr<W>(h: Host<W>, fx: Fixture, g: Cfg, code: R.Code, insns: seq<Insn>, outer: seq<nat>, m: Machine<W>, args: seq<Val>)
    requires BlocksInside(fx) && |fx.blocks| == g.N() && 0 < g.N()
  {
    && (forall k: nat :: !EmittedAt(h, insns, m, k).Trap?)
    && ((exists k: nat :: EmittedAt(h, insns, m, k).Done?) <==> (exists n: nat :: IrAt(h, fx, g, outer, args, m.world, n).end.Halted?))
    && (forall k: nat, n: nat ::
          var c, r := EmittedAt(h, insns, m, k), IrAt(h, fx, g, outer, args, m.world, n);
          c.Done? && r.end.Halted? ==>
            && r.end.block < |fx.blocks| && Finished(h, fx, outer, c.value, c.m, r.end.state, r.end.block)
            && EnteredBy(h, fx, code, insns, m, k) == Visible(fx, r.trace))
  }

  /** Every call of the function computes what the IR says, whatever its host, callers, memory and arguments. */
  ghost predicate ComputesIr<W(!new)>(fx: Fixture, g: Cfg, code: R.Code, insns: seq<Insn>) {
    && BlocksInside(fx) && |fx.blocks| == g.N() && 0 < g.N()
    && forall h: Host<W>, outer, m, args :: HostOk(h) && Entry(h, fx, outer, m, args) ==> CallIsIr(h, fx, g, code, insns, outer, m, args)
  }

  lemma EmittedComputesIr<W(!new)>(fx: Fixture, g: Cfg, order: seq<nat>, s: Shape, code: R.Code, body: seq<Insn>)
    requires Typed(fx) && EmittedBody(fx, g, order, s, code, body)
    ensures ComputesIr<W>(fx, g, code, Whole(fx, body))
  {
    hide HostOk, R.Setting, R.DoTree, EventsCode, Entry, EmittedAt, IrAt, Finished, StmtTyped, G.InRange, EnteredBy, Visible;
    EmittedBodyHasEdges(fx, g, order, s, code, body);
    forall h: Host<W>, outer, m, args | HostOk(h) && Entry(h, fx, outer, m, args) ensures CallIsIr(h, fx, g, code, Whole(fx, body), outer, m, args) {
      EmittedReturnsIffIrHalts(h, fx, g, order, s, code, body, outer, m, args);
      forall k: nat ensures !EmittedAt(h, Whole(fx, body), m, k).Trap? {
        EmittedNeverTraps(h, fx, g, order, s, code, body, outer, m, args, k);
      }
      forall k: nat, n: nat | EmittedAt(h, Whole(fx, body), m, k).Done? && IrAt(h, fx, g, outer, args, m.world, n).end.Halted?
        ensures var c, r := EmittedAt(h, Whole(fx, body), m, k), IrAt(h, fx, g, outer, args, m.world, n);
                && r.end.block < |fx.blocks| && Finished(h, fx, outer, c.value, c.m, r.end.state, r.end.block)
                && EnteredBy(h, fx, code, Whole(fx, body), m, k) == Visible(fx, r.trace)
      {
        EmittedReturnsIrResult(h, fx, g, order, s, code, body, outer, m, args, k, n);
      }
    }
  }
}
