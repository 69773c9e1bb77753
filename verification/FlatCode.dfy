/** The walk's events as the flat list they are: a machine with a program counter and a label stack that finds
    the end of a frame by counting brackets does what the nested code does, for any meaning of the leaves. */
module FlatCode {
  import opened Cfgs
  import opened Shapes
  import opened Relooper
  import opened Structured

  /** Where a branch to a frame goes: back to the start of a loop, or past the end of a block or if. */
  datatype Label = Again(start: nat) | Past(end: nat)

  datatype Flat<S> = Going(pc: nat, labels: seq<Label>, state: S, trace: seq<nat>) | Stopped(block: nat, state: S, trace: seq<nat>) | Trapped

  predicate Opens(e: Event) { e.OpenLoop? || e.OpenBlock? || e.OpenIf? }

  /** The `Close` that matches, from `i` on, `d` frames in. */
  function MatchEnd(es: seq<Event>, i: nat, d: nat): nat
    decreases |es| - i
  {
    if i >= |es| then i
    else if Opens(es[i]) then MatchEnd(es, i + 1, d + 1)
    else if es[i].Close? then (if d == 0 then i else MatchEnd(es, i + 1, d - 1))
    else MatchEnd(es, i + 1, d)
  }

  /** The `ElseArm` that belongs to the frame `i` is in. */
  function MatchElse(es: seq<Event>, i: nat, d: nat): nat
    decreases |es| - i
  {
    if i >= |es| then i
    else if Opens(es[i]) then MatchElse(es, i + 1, d + 1)
    else if es[i].Close? then (if d == 0 then i else MatchElse(es, i + 1, d - 1))
    else if es[i].ElseArm? && d == 0 then i
    else MatchElse(es, i + 1, d)
  }

  /** Control after a branch to the `d`th label from the top. */
  function Arrive<S>(labels: seq<Label>, d: nat, st: S, trace: seq<nat>): Flat<S> {
    if d >= |labels| then Trapped
    else
      var n := |labels| - d;
      match labels[n - 1]
      case Again(start) => Going(start, labels[..n], st, trace)
      case Past(end) => Going(end, labels[..n - 1], st, trace)
  }

  function StepFlat<S>(sem: Leaves<S>, es: seq<Event>, c: Flat<S>): Flat<S> {
    if !c.Going? then c
    else if c.pc >= |es| then Trapped
    else match es[c.pc]
      case OpenLoop(_) => c.(pc := c.pc + 1, labels := c.labels + [Again(c.pc + 1)])
      case OpenBlock(_) =>
        var e := MatchEnd(es, c.pc + 1, 0);
        if e >= |es| then Trapped else c.(pc := c.pc + 1, labels := c.labels + [Past(e + 1)])
      case OpenIf(x) =>
        var e, a := MatchEnd(es, c.pc + 1, 0), MatchElse(es, c.pc + 1, 0);
        if e >= |es| || a >= |es| || !es[a].ElseArm? then Trapped
        else c.(pc := if sem.cond(x, c.state) then c.pc + 1 else a + 1, labels := c.labels + [Past(e + 1)])
      case ElseArm =>
        var e := MatchEnd(es, c.pc + 1, 0);
        if e >= |es| then Trapped else c.(pc := e)
      case Close => if c.labels == [] then Trapped else c.(pc := c.pc + 1, labels := c.labels[..|c.labels| - 1])
      case Br(d) => Arrive(c.labels, d, c.state, c.trace)
      case Stmts(x) => c.(pc := c.pc + 1, state := sem.run(x, c.state), trace := c.trace + [x])
      case PhiMoves(x, t) => c.(pc := c.pc + 1, state := sem.phi(x, t, c.state))
      case Ret(x) => Stopped(x, c.state, c.trace)
  }

  function RunFlat<S>(sem: Leaves<S>, es: seq<Event>, c: Flat<S>, n: nat): Flat<S>
    decreases n
  {
    if n == 0 then c else RunFlat(sem, es, StepFlat(sem, es, c), n - 1)
  }

  lemma {:induction false} RunAdd<S>(sem: Leaves<S>, es: seq<Event>, c: Flat<S>, m: nat, n: nat)
    ensures RunFlat(sem, es, c, m + n) == RunFlat(sem, es, RunFlat(sem, es, c, m), n)
    decreases m
  {
    if m > 0 { RunAdd(sem, es, StepFlat(sem, es, c), m - 1, n); }
  }

  // --- brackets ------------------------------------------------------------------------------------

  predicate Placed(es: seq<Event>, i: nat, part: seq<Event>) {
    i + |part| <= |es| && es[i..i + |part|] == part
  }

  lemma PlacedParts(es: seq<Event>, i: nat, a: seq<Event>, b: seq<Event>)
    requires Placed(es, i, a + b)
    ensures Placed(es, i, a) && Placed(es, i + |a|, b)
  {
    var n := i + |a + b|;
    assert es[i..n][..|a|] == a && es[i..n][|a|..] == b;
    assert es[i..i + |a|] == es[i..n][..|a|];
    assert es[i + |a|..n] == es[i..n][|a|..];
  }

  lemma PlacedOne(es: seq<Event>, i: nat, e: Event)
    requires Placed(es, i, [e])
    ensures i < |es| && es[i] == e
  {
    assert es[i..i + 1][0] == e;
  }

  /** Where the pieces of a framed piece of code stand. */
  lemma FramePlaced(es: seq<Event>, i: nat, open: Event, body: seq<Event>)
    requires Placed(es, i, [open] + body + [Close])
    ensures i < |es| && es[i] == open && Placed(es, i + 1, body) && i + 1 + |body| < |es| && es[i + 1 + |body|] == Close
  {
    PlacedParts(es, i, [open] + body, [Close]);
    PlacedParts(es, i, [open], body);
    PlacedOne(es, i, open);
    PlacedOne(es, i + 1 + |body|, Close);
  }

  lemma IfPlaced(es: seq<Event>, i: nat, open: Event, a: seq<Event>, b: seq<Event>)
    requires Placed(es, i, [open] + a + [ElseArm] + b + [Close])
    ensures i < |es| && es[i] == open && Placed(es, i + 1, a) && i + 1 + |a| < |es| && es[i + 1 + |a|] == ElseArm
    ensures Placed(es, i + 2 + |a|, b) && i + 2 + |a| + |b| < |es| && es[i + 2 + |a| + |b|] == Close
  {
    PlacedParts(es, i, [open] + a + [ElseArm] + b, [Close]);
    PlacedParts(es, i, [open] + a + [ElseArm], b);
    PlacedParts(es, i, [open] + a, [ElseArm]);
    PlacedParts(es, i, [open], a);
    PlacedOne(es, i, open);
    PlacedOne(es, i + 1 + |a|, ElseArm);
    PlacedOne(es, i + 2 + |a| + |b|, Close);
  }

  lemma MatchSteps(es: seq<Event>, i: nat, d: nat)
    requires i < |es|
    ensures Opens(es[i]) ==> MatchEnd(es, i, d) == MatchEnd(es, i + 1, d + 1) && MatchElse(es, i, d) == MatchElse(es, i + 1, d + 1)
    ensures es[i].Close? && d > 0 ==> MatchEnd(es, i, d) == MatchEnd(es, i + 1, d - 1) && MatchElse(es, i, d) == MatchElse(es, i + 1, d - 1)
    ensures !Opens(es[i]) && !es[i].Close? ==> MatchEnd(es, i, d) == MatchEnd(es, i + 1, d)
    ensures !Opens(es[i]) && !es[i].Close? && (d > 0 || !es[i].ElseArm?) ==> MatchElse(es, i, d) == MatchElse(es, i + 1, d)
  {
  }

  lemma FlattenIs(c: Code)
    ensures c.Then? ==> Flatten(c) == Flatten(c.first) + Flatten(c.second)
    ensures c.LoopOf? ==> Flatten(c) == [OpenLoop(c.header)] + Flatten(c.body) + [Close]
    ensures c.BlockOf? ==> Flatten(c) == [OpenBlock(c.follow)] + Flatten(c.body) + [Close]
    ensures c.IfOf? ==> Flatten(c) == [OpenIf(c.x)] + Flatten(c.thn) + [ElseArm] + Flatten(c.els) + [Close]
    ensures !c.Then? && !c.LoopOf? && !c.BlockOf? && !c.IfOf? ==>
              |Flatten(c)| == 1 && Flatten(c) == [Flatten(c)[0]] && !Opens(Flatten(c)[0]) && !Flatten(c)[0].Close? && !Flatten(c)[0].ElseArm?
  {
  }

  /** The brackets of a piece of code balance: looking for a match passes over it. */
  lemma {:induction false} SkipsCode(es: seq<Event>, i: nat, c: Code, d: nat)
    requires Placed(es, i, Flatten(c))
    ensures MatchEnd(es, i, d) == MatchEnd(es, i + |Flatten(c)|, d)
    ensures MatchElse(es, i, d) == MatchElse(es, i + |Flatten(c)|, d)
    decreases c, 0
  {
    hide Placed, MatchEnd, MatchElse, Flatten, Opens;
    FlattenIs(c);
    match c
    case Then(a, b) =>
      PlacedParts(es, i, Flatten(a), Flatten(b));
      SkipsCode(es, i, a, d);
      SkipsCode(es, i + |Flatten(a)|, b, d);
    case LoopOf(h, b) =>
      FramePlaced(es, i, OpenLoop(h), Flatten(b));
      OpensFrame(OpenLoop(h));
      SkipsFrame(es, i, b, d);
    case BlockOf(f, b) =>
      FramePlaced(es, i, OpenBlock(f), Flatten(b));
      OpensFrame(OpenBlock(f));
      SkipsFrame(es, i, b, d);
    case IfOf(x, a, b) =>
      IfPlaced(es, i, OpenIf(x), Flatten(a), Flatten(b));
      SkipsCode(es, i + 1, a, d + 1);
      SkipsCode(es, i + 2 + |Flatten(a)|, b, d + 1);
      OpensFrame(OpenIf(x));
      SkipsArms(es, i, i + 1 + |Flatten(a)|, i + 2 + |Flatten(a)| + |Flatten(b)|, d);
    case _ =>
      PlacedOne(es, i, Flatten(c)[0]);
      MatchSteps(es, i, d);
  }

  lemma OpensFrame(e: Event)
    requires e.OpenLoop? || e.OpenBlock? || e.OpenIf?
    ensures Opens(e)
  {
  }

  lemma SkipsArms(es: seq<Event>, i: nat, els: nat, close: nat, d: nat)
    requires i < els < close < |es| && Opens(es[i]) && es[els] == ElseArm && es[close] == Close
    requires MatchEnd(es, i + 1, d + 1) == MatchEnd(es, els, d + 1) && MatchElse(es, i + 1, d + 1) == MatchElse(es, els, d + 1)
    requires MatchEnd(es, els + 1, d + 1) == MatchEnd(es, close, d + 1) && MatchElse(es, els + 1, d + 1) == MatchElse(es, close, d + 1)
    ensures MatchEnd(es, i, d) == MatchEnd(es, close + 1, d) && MatchElse(es, i, d) == MatchElse(es, close + 1, d)
  {
    hide MatchEnd, MatchElse;
    MatchSteps(es, i, d);
    MatchSteps(es, els, d + 1);
    MatchSteps(es, close, d + 1);
  }

  /** Where an if's arms are found. */
  lemma IfMatches(es: seq<Event>, i: nat, a: Code, b: Code, els: nat, close: nat)
    requires Placed(es, i + 1, Flatten(a)) && els == i + 1 + |Flatten(a)| < |es| && es[els] == ElseArm
    requires Placed(es, els + 1, Flatten(b)) && close == els + 1 + |Flatten(b)| < |es| && es[close] == Close
    ensures MatchElse(es, i + 1, 0) == els && MatchEnd(es, i + 1, 0) == close && MatchEnd(es, els + 1, 0) == close
  {
    hide Placed, Flatten;
    SkipsCode(es, i + 1, a, 0);
    SkipsCode(es, els + 1, b, 0);
  }

  lemma SkipsFrame(es: seq<Event>, i: nat, b: Code, d: nat)
    requires i < |es| && Opens(es[i]) && Placed(es, i + 1, Flatten(b)) && i + 1 + |Flatten(b)| < |es| && es[i + 1 + |Flatten(b)|] == Close
    ensures MatchEnd(es, i, d) == MatchEnd(es, i + 2 + |Flatten(b)|, d) && MatchElse(es, i, d) == MatchElse(es, i + 2 + |Flatten(b)|, d)
    decreases b, 1
  {
    hide MatchEnd, MatchElse, Placed;
    MatchSteps(es, i, d);
    SkipsCode(es, i + 1, b, d + 1);
    MatchSteps(es, i + 1 + |Flatten(b)|, d + 1);
  }

  // --- the flat machine follows the nested code -----------------------------------------------------

  /** What `n` steps of the machine come to, for code that ends at `end` under these labels. */
  ghost predicate FlatRan<S>(f: Flat<S>, o: Outcome<S>, end: nat, labels: seq<Label>, trace: seq<nat>, fuel: nat, n: nat) {
    match o.stop
    case Fell => f == Going(end, labels, o.state, trace + o.trace)
    case Branched(d) => 0 < n && f == Arrive(labels, d, o.state, trace + o.trace)
    case Returned(b) => f == Stopped(b, o.state, trace + o.trace)
    case Spent => f.Going? && f.state == o.state && f.trace == trace + o.trace && fuel < n
  }

  /** A branch out of a frame that was pushed: to its own end, or as seen from outside. */
  lemma ArriveOutside<S>(labels: seq<Label>, top: Label, d: nat, st: S, trace: seq<nat>)
    ensures Arrive(labels + [top], d + 1, st, trace) == Arrive(labels, d, st, trace)
    ensures top.Past? ==> Arrive(labels + [top], 0, st, trace) == Going(top.end, labels, st, trace)
    ensures top.Again? ==> Arrive(labels + [top], 0, st, trace) == Going(top.start, labels + [top], st, trace)
  {
    var all := labels + [top];
    if d < |labels| {
      assert all[..|labels| - d] == labels[..|labels| - d] && all[|labels| - d - 1] == labels[|labels| - d - 1];
      assert all[..|labels| - d - 1] == labels[..|labels| - d - 1];
    }
    assert all[..|labels|] == labels && all[..|labels| + 1] == all;
  }

  /** Leaving a block or if: `k` more steps close the frame where control fell through its end. */
  lemma LeaveFrame<S>(sem: Leaves<S>, es: seq<Event>, start: Flat<S>, n: nat, k: nat, o: Outcome<S>, mid: nat, end: nat, labels: seq<Label>, trace: seq<nat>, fuel: nat)
    returns (n': nat)
    requires FlatRan(RunFlat(sem, es, start, n), o, mid, labels + [Past(end)], trace, fuel, n)
    requires o.stop.Fell? ==>
               RunFlat(sem, es, Going(mid, labels + [Past(end)], o.state, trace + o.trace), k) == Going(end, labels, o.state, trace + o.trace)
    ensures FlatRan(RunFlat(sem, es, start, n'), Leave(o), end, labels, trace, fuel, n')
  {
    hide RunFlat, Arrive;
    n' := n;
    match o.stop {
      case Fell =>
        n' := n + k;
        RunAdd(sem, es, start, n, k);
      case Branched(d) => ArriveOutside(labels, Past(end), if d > 0 then d - 1 else 0, o.state, trace + o.trace);
      case _ =>
    }
  }

  lemma ClosePops<S>(sem: Leaves<S>, es: seq<Event>, pc: nat, labels: seq<Label>, top: Label, st: S, trace: seq<nat>)
    requires pc < |es| && es[pc] == Close
    ensures RunFlat(sem, es, Going(pc, labels + [top], st, trace), 1) == Going(pc + 1, labels, st, trace)
  {
    var c := Going(pc, labels + [top], st, trace);
    assert RunFlat(sem, es, c, 1) == RunFlat(sem, es, StepFlat(sem, es, c), 0);
    assert (labels + [top])[..|labels|] == labels;
  }

  /** Falling out of the first arm skips the second. */
  lemma ElseSkips<S>(sem: Leaves<S>, es: seq<Event>, pc: nat, close: nat, labels: seq<Label>, top: Label, st: S, trace: seq<nat>)
    requires pc < |es| && es[pc] == ElseArm && MatchEnd(es, pc + 1, 0) == close && close < |es| && es[close] == Close
    ensures RunFlat(sem, es, Going(pc, labels + [top], st, trace), 2) == Going(close + 1, labels, st, trace)
  {
    var c := Going(pc, labels + [top], st, trace);
    assert StepFlat(sem, es, c) == Going(close, labels + [top], st, trace);
    ClosePops(sem, es, close, labels, top, st, trace);
    assert RunFlat(sem, es, c, 2) == RunFlat(sem, es, StepFlat(sem, es, c), 1);
  }

  lemma {:induction false} Follows<S>(sem: Leaves<S>, es: seq<Event>, i: nat, c: Code, labels: seq<Label>, st: S, trace: seq<nat>, fuel: nat)
    returns (n: nat)
    requires Placed(es, i, Flatten(c))
    ensures FlatRan(RunFlat(sem, es, Going(i, labels, st, trace), n), Exec(sem, c, st, fuel), i + |Flatten(c)|, labels, trace, fuel, n)
    decreases fuel, c, 1
  {
    hide RunFlat, Placed, MatchEnd, MatchElse, Arrive;
    var start := Going(i, labels, st, trace);
    match c {
      case Then(a, b) => n := ThenFollows(sem, es, i, a, b, labels, st, trace, fuel);
      case BlockOf(f, b) => n := BlockFollows(sem, es, i, f, b, labels, st, trace, fuel);
      case IfOf(x, a, b) => n := IfFollows(sem, es, i, x, a, b, labels, st, trace, fuel);
      case LoopOf(h, b) =>
        FramePlaced(es, i, OpenLoop(h), Flatten(b));
        n := LoopFollows(sem, es, i, h, b, labels, st, trace, fuel);
        FirstStep(sem, es, start, n);
        n := n + 1;
      case _ =>
        PlacedOne(es, i, Flatten(c)[0]);
        FirstStep(sem, es, start, 0);
        NoSteps(sem, es, StepFlat(sem, es, start));
        assert trace + [] == trace;
        n := 1;
    }
  }

  lemma FirstStep<S>(sem: Leaves<S>, es: seq<Event>, c: Flat<S>, n: nat)
    ensures RunFlat(sem, es, c, n + 1) == RunFlat(sem, es, StepFlat(sem, es, c), n)
  {
  }

  lemma NoSteps<S>(sem: Leaves<S>, es: seq<Event>, c: Flat<S>)
    ensures RunFlat(sem, es, c, 0) == c
  {
  }

  lemma ThenFollows<S>(sem: Leaves<S>, es: seq<Event>, i: nat, a: Code, b: Code, labels: seq<Label>, st: S, trace: seq<nat>, fuel: nat)
    returns (n: nat)
    requires Placed(es, i, Flatten(Then(a, b)))
    ensures FlatRan(RunFlat(sem, es, Going(i, labels, st, trace), n), Exec(sem, Then(a, b), st, fuel), i + |Flatten(Then(a, b))|, labels, trace, fuel, n)
    decreases fuel, Then(a, b), 0
  {
    hide RunFlat, Placed, Arrive;
    PlacedParts(es, i, Flatten(a), Flatten(b));
    n := Follows(sem, es, i, a, labels, st, trace, fuel);
    var o := Exec(sem, a, st, fuel);
    if o.stop.Fell? {
      var k := Follows(sem, es, i + |Flatten(a)|, b, labels, o.state, trace + o.trace, fuel);
      RunAdd(sem, es, Going(i, labels, st, trace), n, k);
      n := n + k;
      var o2 := Exec(sem, b, o.state, fuel);
      assert trace + o.trace + o2.trace == trace + (o.trace + o2.trace);
    }
  }

  lemma BlockFollows<S>(sem: Leaves<S>, es: seq<Event>, i: nat, f: nat, b: Code, labels: seq<Label>, st: S, trace: seq<nat>, fuel: nat)
    returns (n: nat)
    requires Placed(es, i, Flatten(BlockOf(f, b)))
    ensures FlatRan(RunFlat(sem, es, Going(i, labels, st, trace), n), Exec(sem, BlockOf(f, b), st, fuel), i + |Flatten(BlockOf(f, b))|, labels, trace, fuel, n)
    decreases fuel, BlockOf(f, b), 0
  {
    hide RunFlat, Placed, Arrive, FlatRan;
    FramePlaced(es, i, OpenBlock(f), Flatten(b));
    var close := i + 1 + |Flatten(b)|;
    SkipsCode(es, i + 1, b, 0);
    var inner := Going(i + 1, labels + [Past(close + 1)], st, trace);
    var m := Follows(sem, es, i + 1, b, inner.labels, st, trace, fuel);
    var o := Exec(sem, b, st, fuel);
    ClosePops(sem, es, close, labels, Past(close + 1), o.state, trace + o.trace);
    FellAt(RunFlat(sem, es, inner, m), o, close, inner.labels, trace, fuel, m);
    n := LeaveFrame(sem, es, inner, m, 1, o, close, close + 1, labels, trace, fuel);
    Later(sem, es, Going(i, labels, st, trace), inner, n, Leave(o), close + 1, labels, trace, fuel);
    n := n + 1;
  }

  /** One step before. */
  lemma Later<S>(sem: Leaves<S>, es: seq<Event>, start: Flat<S>, inner: Flat<S>, n: nat, o: Outcome<S>, end: nat, labels: seq<Label>, trace: seq<nat>, fuel: nat)
    requires StepFlat(sem, es, start) == inner && FlatRan(RunFlat(sem, es, inner, n), o, end, labels, trace, fuel, n)
    ensures FlatRan(RunFlat(sem, es, start, n + 1), o, end, labels, trace, fuel, n + 1)
  {
    FirstStep(sem, es, start, n);
  }

  lemma FellAt<S>(f: Flat<S>, o: Outcome<S>, end: nat, labels: seq<Label>, trace: seq<nat>, fuel: nat, n: nat)
    requires FlatRan(f, o, end, labels, trace, fuel, n)
    ensures o.stop.Fell? ==> f == Going(end, labels, o.state, trace + o.trace)
  {
  }

  lemma IfFollows<S>(sem: Leaves<S>, es: seq<Event>, i: nat, x: nat, a: Code, b: Code, labels: seq<Label>, st: S, trace: seq<nat>, fuel: nat)
    returns (n: nat)
    requires Placed(es, i, Flatten(IfOf(x, a, b)))
    ensures FlatRan(RunFlat(sem, es, Going(i, labels, st, trace), n), Exec(sem, IfOf(x, a, b), st, fuel), i + |Flatten(IfOf(x, a, b))|, labels, trace, fuel, n)
    decreases fuel, IfOf(x, a, b), 0
  {
    hide RunFlat, Placed, Arrive, FlatRan, MatchEnd, MatchElse, Leave;
    IfPlaced(es, i, OpenIf(x), Flatten(a), Flatten(b));
    var els := i + 1 + |Flatten(a)|;
    var close := els + 1 + |Flatten(b)|;
    IfMatches(es, i, a, b, els, close);
    var inside := labels + [Past(close + 1)];
    var start := Going(i, labels, st, trace);
    if sem.cond(x, st) {
      var m := Follows(sem, es, i + 1, a, inside, st, trace, fuel);
      var o := Exec(sem, a, st, fuel);
      ElseSkips(sem, es, els, close, labels, Past(close + 1), o.state, trace + o.trace);
      n := LeaveFrame(sem, es, Going(i + 1, inside, st, trace), m, 2, o, els, close + 1, labels, trace, fuel);
      Later(sem, es, start, Going(i + 1, inside, st, trace), n, Leave(o), close + 1, labels, trace, fuel);
    } else {
      var m := Follows(sem, es, els + 1, b, inside, st, trace, fuel);
      var o := Exec(sem, b, st, fuel);
      ClosePops(sem, es, close, labels, Past(close + 1), o.state, trace + o.trace);
      n := LeaveFrame(sem, es, Going(els + 1, inside, st, trace), m, 1, o, close, close + 1, labels, trace, fuel);
      Later(sem, es, start, Going(els + 1, inside, st, trace), n, Leave(o), close + 1, labels, trace, fuel);
    }
    n := n + 1;
  }

  /** From the start of a loop's body, its label pushed. */
  lemma {:induction false} LoopFollows<S>(sem: Leaves<S>, es: seq<Event>, i: nat, h: nat, b: Code, labels: seq<Label>, st: S, trace: seq<nat>, fuel: nat)
    returns (n: nat)
    requires Placed(es, i, Flatten(LoopOf(h, b)))
    ensures FlatRan(RunFlat(sem, es, Going(i + 1, labels + [Again(i + 1)], st, trace), n), Exec(sem, LoopOf(h, b), st, fuel),
                    i + |Flatten(LoopOf(h, b))|, labels, trace, fuel, n)
    decreases fuel, LoopOf(h, b), 0
  {
    hide RunFlat, Placed, Arrive;
    FramePlaced(es, i, OpenLoop(h), Flatten(b));
    var close, inside := i + 1 + |Flatten(b)|, labels + [Again(i + 1)];
    var start := Going(i + 1, inside, st, trace);
    n := Follows(sem, es, i + 1, b, inside, st, trace, fuel);
    var o := Exec(sem, b, st, fuel);
    match o.stop {
      case Fell =>
        ClosePops(sem, es, close, labels, Again(i + 1), o.state, trace + o.trace);
        RunAdd(sem, es, start, n, 1);
        n := n + 1;
      case Branched(d) =>
        ArriveOutside(labels, Again(i + 1), if d > 0 then d - 1 else 0, o.state, trace + o.trace);
        if d == 0 && fuel > 0 {
          var k := LoopFollows(sem, es, i, h, b, labels, o.state, trace + o.trace, fuel - 1);
          RunAdd(sem, es, start, n, k);
          n := n + k;
          var o2 := Exec(sem, LoopOf(h, b), o.state, fuel - 1);
          assert trace + o.trace + o2.trace == trace + (o.trace + o2.trace);
        }
      case _ =>
    }
  }

  /** The list the walk emits for an accepted graph, followed by anything, never runs into what follows it: it
      stops where the graph halts, with the same state and blocks; and with too little fuel it has gone on for
      more steps than the fuel, through the same blocks to the same state as the graph. */
  lemma FlatFollowsGraph<S>(g: Cfg, order: seq<nat>, s: Shape, terms: seq<Term>, sem: Leaves<S>, st: S, tail: seq<Event>, fuel: nat)
    returns (n: nat)
    requires Setting(g, order, s, terms)
    ensures Walkable(s, terms) && InRange(terms) && 0 < |terms| && DoTree(s, terms, 0, []).Some?
    ensures var f := RunFlat(sem, Flatten(DoTree(s, terms, 0, []).value) + tail, Going(0, [], st, []), n);
            && !f.Trapped?
            && var r := RunGraph(sem, terms, 0, st, |f.trace|);
               && r.trace == f.trace && r.end.state == f.state
               && if f.Stopped? then r.end == Halted(f.block, f.state) else r.end.At? && fuel < n && fuel < |f.trace|
  {
    hide RunFlat, DoTree, Exec, RunGraph, Flatten, Setting;
    CodeFollowsGraph(g, order, s, terms, sem, st, fuel);
    var code := DoTree(s, terms, 0, []).value;
    var es := Flatten(code) + tail;
    assert es[0..|es|] == es;
    PlacedParts(es, 0, Flatten(code), tail);
    n := Follows(sem, es, 0, code, [], st, [], fuel);
    var o := Exec(sem, code, st, fuel);
    assert [] + o.trace == o.trace;
  }
}
