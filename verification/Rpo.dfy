/** Reverse postorder by an iterative depth-first search. */
module Rpo {
  import opened Cfgs

  predicate Distinct(s: seq<nat>) {
    forall i, j :: 0 <= i < j < |s| ==> s[i] != s[j]
  }

  /** `a` stands before `b` in `s`. */
  ghost predicate Before(s: seq<nat>, a: nat, b: nat) {
    exists i, j :: 0 <= i < j < |s| && s[i] == a && s[j] == b
  }

  /** A path from `v` to `u` each of whose steps goes to a block that stands earlier in `s`. */
  ghost predicate Descent(g: Cfg, s: seq<nat>, p: seq<nat>, v: nat, u: nat) {
    && Path(g, p) && p[0] == v && p[|p| - 1] == u
    && forall i :: 0 < i < |p| ==> Before(s, p[i], p[i - 1])
  }

  ghost predicate Descends(g: Cfg, s: seq<nat>, v: nat, u: nat) {
    exists p :: Descent(g, s, p, v, u)
  }

  /** How a scanned edge lies in the finishing order `s`: its target finishes first, or the target
      is an ancestor of the source in the search tree. */
  ghost predicate EdgeFits(g: Cfg, s: seq<nat>, u: nat, v: nat) {
    v in s && (Before(s, v, u) || Descends(g, s, v, u))
  }

  /** Every entry but the last is entered from one that finishes later. */
  ghost predicate Rooted(g: Cfg, s: seq<nat>) {
    forall i :: 0 <= i < |s| - 1 ==> EnteredFromLater(g, s, i)
  }

  ghost predicate EnteredFromLater(g: Cfg, s: seq<nat>, i: nat) {
    exists j :: i < j < |s| && i < |s| && g.Edge(s[j], s[i])
  }

  // --- inserting a newly discovered block into the finishing order ------------------

  function Insert(s: seq<nat>, k: nat, w: nat): (r: seq<nat>)
    requires k <= |s|
    ensures |r| == |s| + 1 && r[k] == w
    ensures forall i :: 0 <= i < k ==> r[i] == s[i]
    ensures forall i :: k <= i < |s| ==> r[i + 1] == s[i]
  {
    s[..k] + [w] + s[k..]
  }

  lemma InsertKeepsMembers(s: seq<nat>, k: nat, w: nat, x: nat)
    requires k <= |s|
    ensures x in Insert(s, k, w) <==> x in s || x == w
  {
    assert s == s[..k] + s[k..];
  }

  lemma InsertKeepsBefore(s: seq<nat>, k: nat, w: nat, a: nat, b: nat)
    requires k <= |s| && Before(s, a, b)
    ensures Before(Insert(s, k, w), a, b)
  {
    var i, j :| 0 <= i < j < |s| && s[i] == a && s[j] == b;
    var i', j' := if i < k then i else i + 1, if j < k then j else j + 1;
    assert Insert(s, k, w)[i'] == a && Insert(s, k, w)[j'] == b;
  }

  lemma InsertKeepsFit(g: Cfg, s: seq<nat>, k: nat, w: nat, u: nat, v: nat)
    requires k <= |s| && EdgeFits(g, s, u, v)
    ensures EdgeFits(g, Insert(s, k, w), u, v)
  {
    InsertKeepsMembers(s, k, w, v);
    if Before(s, v, u) {
      InsertKeepsBefore(s, k, w, v, u);
    } else {
      var p :| Descent(g, s, p, v, u);
      forall i | 0 < i < |p| ensures Before(Insert(s, k, w), p[i], p[i - 1]) {
        InsertKeepsBefore(s, k, w, p[i], p[i - 1]);
      }
      assert Descent(g, Insert(s, k, w), p, v, u);
    }
  }

  lemma InsertKeepsRooted(g: Cfg, s: seq<nat>, k: nat, w: nat)
    requires k < |s| && Rooted(g, s) && g.Edge(s[k], w)
    ensures Rooted(g, Insert(s, k, w))
  {
    var r := Insert(s, k, w);
    forall i | 0 <= i < |r| - 1 ensures EnteredFromLater(g, r, i) {
      if i == k {
        assert g.Edge(r[k + 1], r[k]);
      } else {
        var i0 := if i < k then i else i - 1;
        assert EnteredFromLater(g, s, i0);
        var j :| i0 < j < |s| && g.Edge(s[j], s[i0]);
        assert g.Edge(r[if j < k then j else j + 1], r[i]);
      }
    }
  }

  // --- the search --------------------------------------------------------------------

  /** The blocks on the stack in the order they will finish: the top first. */
  function TopFirst(stack: seq<(nat, nat)>): (r: seq<nat>)
    ensures |r| == |stack| && forall i :: 0 <= i < |r| ==> r[i] == stack[|stack| - 1 - i].0
  {
    if stack == [] then [] else [stack[|stack| - 1].0] + TopFirst(stack[..|stack| - 1])
  }

  /** The finishing order so far: what has finished, then what is on the stack. */
  function Finishing(post: seq<nat>, stack: seq<(nat, nat)>): seq<nat> {
    post + TopFirst(stack)
  }

  ghost predicate ScannedOf(g: Cfg, s: seq<nat>, u: nat, count: nat) {
    u < g.N() && count <= |g.succs[u]| && forall k :: 0 <= k < count ==> EdgeFits(g, s, u, g.succs[u][k])
  }

  ghost predicate StackPath(g: Cfg, stack: seq<(nat, nat)>) {
    forall k :: 0 < k < |stack| ==> g.Edge(stack[k - 1].0, stack[k].0)
  }

  ghost predicate SearchInv(g: Cfg, visited: seq<bool>, post: seq<nat>, stack: seq<(nat, nat)>) {
    var s := Finishing(post, stack);
    && |visited| == g.N() && 0 < |s| && s[|s| - 1] == 0
    && Distinct(s)
    && (forall x :: x in s ==> x < g.N())
    && (forall x :: 0 <= x < g.N() ==> (visited[x] <==> x in s))
    && Rooted(g, s) && StackPath(g, stack)
    && (forall i :: 0 <= i < |post| ==> post[i] < g.N() && ScannedOf(g, s, post[i], |g.succs[post[i]]|))
    && (forall i :: 0 <= i < |stack| ==> ScannedOf(g, s, stack[i].0, stack[i].1))
  }

  /** A block on the stack reaches the block on top along the stack. */
  lemma StackDescent(g: Cfg, visited: seq<bool>, post: seq<nat>, stack: seq<(nat, nat)>, m: nat)
    requires SearchInv(g, visited, post, stack) && m < |stack|
    ensures Descends(g, Finishing(post, stack), stack[m].0, stack[|stack| - 1].0)
  {
    var s := Finishing(post, stack);
    var p := seq(|stack| - m, i requires 0 <= i < |stack| - m => stack[m + i].0);
    forall i | 0 <= i < |p| ensures p[i] == s[|s| - 1 - (m + i)] && p[i] < g.N() {
      assert s[|s| - 1 - (m + i)] in s;
    }
    forall i | 0 < i < |p| ensures Before(s, p[i], p[i - 1]) {
      assert s[|s| - 1 - (m + i)] == p[i] && s[|s| - 1 - (m + i - 1)] == p[i - 1];
    }
    assert Descent(g, s, p, stack[m].0, stack[|stack| - 1].0);
  }

  /** An edge from the top of the stack to a visited block fits. */
  lemma VisitedEdgeFits(g: Cfg, visited: seq<bool>, post: seq<nat>, stack: seq<(nat, nat)>, v: nat)
    requires SearchInv(g, visited, post, stack) && 0 < |stack| && v in Finishing(post, stack)
    ensures EdgeFits(g, Finishing(post, stack), stack[|stack| - 1].0, v)
  {
    var s := Finishing(post, stack);
    var m :| 0 <= m < |s| && s[m] == v;
    assert s[|post|] == stack[|stack| - 1].0;
    if m >= |post| {
      StackDescent(g, visited, post, stack, |s| - 1 - m);
    }
  }

  /** The stack after looking at the next successor of its top. */
  function Advance(stack: seq<(nat, nat)>): (r: seq<(nat, nat)>)
    requires 0 < |stack|
    ensures |r| == |stack| && forall i :: 0 <= i < |r| ==> r[i].0 == stack[i].0
  {
    stack[|stack| - 1 := (stack[|stack| - 1].0, stack[|stack| - 1].1 + 1)]
  }

  lemma AdvanceKeepsFinishing(post: seq<nat>, stack: seq<(nat, nat)>)
    requires 0 < |stack|
    ensures Finishing(post, Advance(stack)) == Finishing(post, stack)
  {
    assert TopFirst(Advance(stack)) == TopFirst(stack);
  }

  lemma ScanVisited(g: Cfg, visited: seq<bool>, post: seq<nat>, stack: seq<(nat, nat)>)
    requires WellFormed(g) && SearchInv(g, visited, post, stack) && 0 < |stack|
    requires var (u, i) := stack[|stack| - 1]; u < g.N() && i < |g.succs[u]| && g.succs[u][i] < g.N() && visited[g.succs[u][i]]
    ensures SearchInv(g, visited, post, Advance(stack))
  {
    var (u, i) := stack[|stack| - 1];
    AdvanceKeepsFinishing(post, stack);
    VisitedEdgeFits(g, visited, post, stack, g.succs[u][i]);
    assert ScannedOf(g, Finishing(post, stack), stack[|stack| - 1].0, stack[|stack| - 1].1);
  }

  lemma PushIsInsert(post: seq<nat>, stack: seq<(nat, nat)>, w: nat)
    requires 0 < |stack|
    ensures Finishing(post, Advance(stack) + [(w, 0)]) == Insert(Finishing(post, stack), |post|, w)
  {
    AdvanceKeepsFinishing(post, stack);
    var st := Advance(stack) + [(w, 0)];
    assert st[..|st| - 1] == Advance(stack);
    assert TopFirst(st) == [w] + TopFirst(Advance(stack));
  }

  lemma InsertKeepsScanned(g: Cfg, s: seq<nat>, k: nat, w: nat, u: nat, count: nat)
    requires k <= |s| && ScannedOf(g, s, u, count)
    ensures ScannedOf(g, Insert(s, k, w), u, count)
  {
    forall i | 0 <= i < count ensures EdgeFits(g, Insert(s, k, w), u, g.succs[u][i]) {
      InsertKeepsFit(g, s, k, w, u, g.succs[u][i]);
    }
  }

  lemma ScanNew(g: Cfg, visited: seq<bool>, post: seq<nat>, stack: seq<(nat, nat)>, w: nat)
    requires WellFormed(g) && SearchInv(g, visited, post, stack) && 0 < |stack| && w < g.N() && !visited[w]
    requires var (u, i) := stack[|stack| - 1]; u < g.N() && i < |g.succs[u]| && g.succs[u][i] == w
    ensures SearchInv(g, visited[w := true], post, Advance(stack) + [(w, 0)])
  {
    var s, stack' := Finishing(post, stack), Advance(stack) + [(w, 0)];
    var (u, i) := stack[|stack| - 1];
    var s' := Insert(s, |post|, w);
    PushIsInsert(post, stack, w);
    assert s[|post|] == u;
    InsertKeepsRooted(g, s, |post|, w);
    forall x: nat ensures x in s' <==> x in s || x == w {
      InsertKeepsMembers(s, |post|, w, x);
    }
    forall k | 0 <= k < |post| ensures ScannedOf(g, s', post[k], |g.succs[post[k]]|) {
      InsertKeepsScanned(g, s, |post|, w, post[k], |g.succs[post[k]]|);
    }
    forall k | 0 <= k < |stack| ensures ScannedOf(g, s', stack[k].0, stack[k].1) {
      InsertKeepsScanned(g, s, |post|, w, stack[k].0, stack[k].1);
    }
    assert s'[|post|] == w && s'[|post| + 1] == u;
    assert Before(s', w, u);
    InsertDistinct(s, |post|, w);
  }

  lemma InsertDistinct(s: seq<nat>, k: nat, w: nat)
    requires k <= |s| && Distinct(s) && w !in s
    ensures Distinct(Insert(s, k, w))
  {
  }

  lemma FinishTop(g: Cfg, visited: seq<bool>, post: seq<nat>, stack: seq<(nat, nat)>)
    requires SearchInv(g, visited, post, stack) && 0 < |stack|
    requires var (u, i) := stack[|stack| - 1]; u < g.N() && i >= |g.succs[u]|
    ensures SearchInv(g, visited, post + [stack[|stack| - 1].0], stack[..|stack| - 1])
  {
    var (u, i) := stack[|stack| - 1];
    assert Finishing(post + [u], stack[..|stack| - 1]) == Finishing(post, stack);
    assert ScannedOf(g, Finishing(post, stack), stack[|stack| - 1].0, stack[|stack| - 1].1);
  }

  // --- the result ----------------------------------------------------------------------

  /** A path from `v` to `u` through ever later entries of `order`. */
  ghost predicate Ascent(g: Cfg, order: seq<nat>, p: seq<nat>, v: nat, u: nat) {
    && Path(g, p) && p[0] == v && p[|p| - 1] == u
    && forall i :: 0 < i < |p| ==> Before(order, p[i - 1], p[i])
  }

  /** A reverse postorder: the blocks reachable from the entry, once each, entry first; each other
      one entered from an earlier one; and an edge that does not go forward closes a cycle of
      forward steps. */
  ghost predicate IsRpo(g: Cfg, order: seq<nat>) {
    && 0 < |order| && order[0] == 0 && Distinct(order)
    && (forall x :: x in order ==> x < g.N())
    && (forall b: nat :: b in order <==> Reachable(g, b))
    && (forall i :: 0 < i < |order| ==> exists j :: 0 <= j < i && g.Edge(order[j], order[i]))
    && (forall u, v :: u in order && g.Edge(u, v) ==>
          Before(order, u, v) || exists p :: Ascent(g, order, p, v, u))
  }

  function Reverse(s: seq<nat>): (r: seq<nat>)
    ensures |r| == |s| && forall i :: 0 <= i < |s| ==> r[i] == s[|s| - 1 - i]
  {
    if s == [] then [] else Reverse(s[1..]) + [s[0]]
  }

  lemma ReverseBefore(s: seq<nat>, a: nat, b: nat)
    requires Before(s, a, b)
    ensures Before(Reverse(s), b, a)
  {
    var i, j :| 0 <= i < j < |s| && s[i] == a && s[j] == b;
    assert Reverse(s)[|s| - 1 - j] == b && Reverse(s)[|s| - 1 - i] == a;
  }

  lemma {:induction false} FinishedIsReachable(g: Cfg, s: seq<nat>, i: nat)
    requires Rooted(g, s) && i < |s| && s[|s| - 1] == 0 && forall x :: x in s ==> x < g.N()
    ensures Reachable(g, s[i])
    decreases |s| - i
  {
    if i == |s| - 1 {
      assert s[i] in s;
      assert PathTo(g, [0], 0);
    } else {
      assert EnteredFromLater(g, s, i);
      var j :| i < j < |s| && g.Edge(s[j], s[i]);
      FinishedIsReachable(g, s, j);
      var p :| PathTo(g, p, s[j]);
      assert s[i] in s;
      assert PathTo(g, p + [s[i]], s[i]);
    }
  }

  lemma {:induction false} ReachableIsFinished(g: Cfg, s: seq<nat>, p: seq<nat>, b: nat)
    requires 0 in s && PathTo(g, p, b)
    requires forall u, v :: u in s && g.Edge(u, v) ==> v in s
    ensures b in s
    decreases |p|
  {
    if |p| > 1 {
      assert PathTo(g, p[..|p| - 1], p[|p| - 2]);
      ReachableIsFinished(g, s, p[..|p| - 1], p[|p| - 2]);
      assert g.Edge(p[|p| - 2], p[|p| - 1]);
    }
  }

  lemma FinishedEdgeFits(g: Cfg, visited: seq<bool>, post: seq<nat>, u: nat, v: nat)
    requires SearchInv(g, visited, post, []) && u in post && g.Edge(u, v)
    ensures EdgeFits(g, post, u, v)
  {
    assert Finishing(post, []) == post;
    var i :| 0 <= i < |post| && post[i] == u;
    assert ScannedOf(g, post, post[i], |g.succs[post[i]]|);
    var k :| 0 <= k < |g.succs[u]| && g.succs[u][k] == v;
  }

  lemma FinishedIsRpo(g: Cfg, visited: seq<bool>, post: seq<nat>)
    requires WellFormed(g) && SearchInv(g, visited, post, [])
    ensures IsRpo(g, Reverse(post))
  {
    hide Ascent, Descent, Before;
    var order := Reverse(post);
    assert Finishing(post, []) == post;
    forall b: nat ensures b in order <==> b in post {
      if b in post { var i :| 0 <= i < |post| && post[i] == b; assert order[|post| - 1 - i] == b; }
    }
    forall u, v | u in post && g.Edge(u, v) ensures v in post {
      FinishedEdgeFits(g, visited, post, u, v);
    }
    forall b: nat ensures b in order <==> Reachable(g, b) {
      if b in post {
        var i :| 0 <= i < |post| && post[i] == b;
        FinishedIsReachable(g, post, i);
      }
      if Reachable(g, b) {
        var p :| PathTo(g, p, b);
        ReachableIsFinished(g, post, p, b);
      }
    }
    forall i | 0 < i < |order| ensures exists j :: 0 <= j < i && g.Edge(order[j], order[i]) {
      assert EnteredFromLater(g, post, |post| - 1 - i);
      var j :| |post| - 1 - i < j < |post| && g.Edge(post[j], post[|post| - 1 - i]);
      assert order[|post| - 1 - j] == post[j];
    }
    forall u, v | u in order && g.Edge(u, v) ensures Before(order, u, v) || exists p :: Ascent(g, order, p, v, u) {
      FinishedEdgeAscends(g, visited, post, u, v);
    }
  }

  lemma FinishedEdgeAscends(g: Cfg, visited: seq<bool>, post: seq<nat>, u: nat, v: nat)
    requires SearchInv(g, visited, post, []) && u in post && g.Edge(u, v)
    ensures Before(Reverse(post), u, v) || exists p :: Ascent(g, Reverse(post), p, v, u)
  {
    FinishedEdgeFits(g, visited, post, u, v);
    if Before(post, v, u) {
      ReverseBefore(post, v, u);
    } else {
      var p :| Descent(g, post, p, v, u);
      forall i | 0 < i < |p| ensures Before(Reverse(post), p[i - 1], p[i]) {
        ReverseBefore(post, p[i], p[i - 1]);
      }
      assert Ascent(g, Reverse(post), p, v, u);
    }
  }

  function CountFalse(visited: seq<bool>): nat {
    if visited == [] then 0 else (if visited[0] then 0 else 1) + CountFalse(visited[1..])
  }

  lemma {:induction false} VisitCounts(visited: seq<bool>, v: nat)
    requires v < |visited| && !visited[v]
    ensures CountFalse(visited[v := true]) < CountFalse(visited)
  {
    if v > 0 {
      assert visited[v := true][1..] == visited[1..][v - 1 := true];
      VisitCounts(visited[1..], v - 1);
    } else {
      assert visited[v := true][1..] == visited[1..];
    }
  }

  lemma InitialSearch(g: Cfg, visited: seq<bool>)
    requires WellFormed(g) && |visited| == g.N() && forall i :: 0 <= i < |visited| ==> visited[i] == (i == 0)
    ensures SearchInv(g, visited, [], [(0, 0)])
  {
    assert TopFirst([(0, 0)]) == [0];
    assert Finishing([], [(0, 0)]) == [0];
  }

  method ReversePostorder(g: Cfg) returns (order: seq<nat>)
    requires WellFormed(g)
    ensures IsRpo(g, order)
  {
    var visited := seq(g.N(), (i: nat) => i == 0);
    var post: seq<nat> := [];
    var stack: seq<(nat, nat)> := [(0, 0)];
    InitialSearch(g, visited);
    while stack != []
      invariant SearchInv(g, visited, post, stack)
      invariant |stack| > 0 ==> stack[|stack| - 1].0 < g.N()
      decreases CountFalse(visited), |stack|, if stack == [] then 0 else |g.succs[stack[|stack| - 1].0]| - stack[|stack| - 1].1
    {
      var (u, i) := stack[|stack| - 1];
      if i < |g.succs[u]| {
        var v := g.succs[u][i];
        assert v in g.succs[u];
        if !visited[v] {
          ScanNew(g, visited, post, stack, v);
          VisitCounts(visited, v);
          visited := visited[v := true];
          stack := Advance(stack) + [(v, 0)];
        } else {
          ScanVisited(g, visited, post, stack);
          stack := Advance(stack);
        }
      } else {
        FinishTop(g, visited, post, stack);
        post := post + [u];
        stack := stack[..|stack| - 1];
      }
      assert |stack| > 0 ==> ScannedOf(g, Finishing(post, stack), stack[|stack| - 1].0, stack[|stack| - 1].1);
    }
    FinishedIsRpo(g, visited, post);
    order := Reverse(post);
  }
}
