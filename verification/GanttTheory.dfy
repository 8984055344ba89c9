// What the row order means for the chart: it is unique, it respects every dependency of
// an acyclic graph, and depth grows along every line.
module GanttTheory {
  import opened DependencyGraph
  import opened Gantt

  // ---- the queue discipline leaves one order ----

  lemma {:induction false} ReleasedPrefix(es: seq<Edge>, a: seq<TaskId>, b: seq<TaskId>)
    ensures Released(es, a) <= Released(es, a + b)
  {
    if b == [] {
      assert a + b == a;
    } else {
      var n := |b| - 1;
      ReleasedPrefix(es, a, b[..n]);
      assert (a + b)[..|a + b| - 1] == a + b[..n];
    }
  }

  lemma {:induction false} FedPrefix(es: seq<Edge>, order: seq<TaskId>, n: nat)
    requires n <= |order|
    ensures Fed(es, order[..n]) <= Fed(es, order)
  {
    if n < |order| {
      var m := |order| - 1;
      FedPrefix(es, order[..m], n);
      assert order[..m][..n] == order[..n];
    } else {
      assert order[..n] == order;
    }
  }

  lemma QueueOrderDistinct(es: seq<Edge>, ids: seq<TaskId>, p: seq<TaskId>)
    requires Distinct(ids) && QueueOrder(es, ids, p)
    ensures Distinct(p)
  {
    hide Distinct, Roots, Released, Fed;
    QueuedDistinct(es, ids, Fed(es, p));
  }

  lemma ReleasedEarly(es: seq<Edge>, ids: seq<TaskId>, p: seq<TaskId>, n: nat)
    requires Distinct(ids) && QueueOrder(es, ids, p) && Topological(es, p)
    requires |Roots(es, ids)| <= n < |p|
    ensures p[n] in Released(es, Fed(es, p[..n]))
  {
    var x := p[n];
    QueueOrderDistinct(es, ids, p);
    assert x == Released(es, Fed(es, p))[n - |Roots(es, ids)|];
    ReleasedMembers(es, Fed(es, p));
    ReleasedMembers(es, Fed(es, p[..n]));
    assert Distinct(p[..n]) && After(es, p[..n], p[n]);
    hide Topological, QueueOrder, Distinct, Roots, After;
    FedCount(es, p[..n], x);
    UnfedZero(es, p[..n], x);
  }

  // A task past the roots is released by the tasks placed before it.
  lemma ReleasedByPrefix(es: seq<Edge>, ids: seq<TaskId>, p: seq<TaskId>, n: nat)
    requires Distinct(ids) && QueueOrder(es, ids, p) && Topological(es, p)
    requires |Roots(es, ids)| <= n < |p|
    ensures n < |Roots(es, ids) + Released(es, Fed(es, p[..n]))|
    ensures p[n] == (Roots(es, ids) + Released(es, Fed(es, p[..n])))[n]
  {
    var k, x := |Roots(es, ids)|, p[n];
    var early, all := Released(es, Fed(es, p[..n])), Released(es, Fed(es, p));
    ReleasedEarly(es, ids, p, n);
    assert all[n - k] == x;
    FedPrefix(es, p, n);
    var rest := Fed(es, p)[|Fed(es, p[..n])|..];
    assert Fed(es, p) == Fed(es, p[..n]) + rest;
    ReleasedPrefix(es, Fed(es, p[..n]), rest);
    ReleasedMembers(es, Fed(es, p));
    hide Topological, QueueOrder, Roots, Released, Fed;
    var m :| 0 <= m < |early| && early[m] == x;
    assert all[m] == x;
  }

  lemma {:induction false} OrdersAgree(es: seq<Edge>, ids: seq<TaskId>, p: seq<TaskId>, q: seq<TaskId>, n: nat)
    requires Distinct(ids) && n <= |p|
    requires QueueOrder(es, ids, p) && Topological(es, p)
    requires QueueOrder(es, ids, q) && Topological(es, q)
    ensures n <= |q| && p[..n] == q[..n]
  {
    if n > 0 {
      var m := n - 1;
      OrdersAgree(es, ids, p, q, m);
      if m >= |Roots(es, ids)| {
        ReleasedByPrefix(es, ids, p, m);
        FedPrefix(es, q, m);
        var rest := Fed(es, q)[|Fed(es, q[..m])|..];
        assert Fed(es, q) == Fed(es, q[..m]) + rest;
        ReleasedPrefix(es, Fed(es, q[..m]), rest);
      }
      assert p[m] == q[m];
      TakeStep(p, m);
      TakeStep(q, m);
    }
  }

  // Two results with this contract list the rows in the same order.
  lemma OrderIsDetermined(es: seq<Edge>, ids: seq<TaskId>, o1: seq<TaskId>, o2: seq<TaskId>, p1: seq<TaskId>,
                          p2: seq<TaskId>)
    requires Distinct(ids) && IsPlacement(es, ids, o1, p1) && IsPlacement(es, ids, o2, p2)
    ensures o1 == o2
  {
    hide Distinct, Topological, QueueOrder, Stuck;
    PlacedAgree(es, ids, p1, p2);
  }

  lemma PlacedAgree(es: seq<Edge>, ids: seq<TaskId>, p: seq<TaskId>, q: seq<TaskId>)
    requires Distinct(ids)
    requires QueueOrder(es, ids, p) && Topological(es, p)
    requires QueueOrder(es, ids, q) && Topological(es, q)
    ensures p == q
  {
    hide Distinct, Topological, QueueOrder;
    OrdersAgree(es, ids, p, q, |p|);
    OrdersAgree(es, ids, q, p, |q|);
    Whole(p);
    Whole(q);
  }

  // fed[i] is the entry that frees x: the last of x's incoming edges.
  predicate FreedAt(es: seq<Edge>, fed: seq<TaskId>, i: nat, x: TaskId) {
    i < |fed| && fed[i] == x && multiset(fed[..i + 1])[x] == InDegree(es, x)
  }

  // Rows past the roots appear in the order in which their last dependency clears.
  lemma {:induction false} ReleasedInFreeingOrder(es: seq<Edge>, fed: seq<TaskId>, a: nat, b: nat)
      returns (i: nat, j: nat)
    requires a < b < |Released(es, fed)|
    ensures i < j && FreedAt(es, fed, i, Released(es, fed)[a]) && FreedAt(es, fed, j, Released(es, fed)[b])
  {
    var n := |fed| - 1;
    var head := Released(es, fed[..n]);
    if b < |head| {
      i, j := ReleasedInFreeingOrder(es, fed[..n], a, b);
      assert fed[..n][..i + 1] == fed[..i + 1] && fed[..n][..j + 1] == fed[..j + 1];
    } else {
      i := FreeingEntry(es, fed[..n], a);
      j := n;
      assert fed[..n][..i + 1] == fed[..i + 1] && fed[..n + 1] == fed;
    }
  }

  lemma {:induction false} FreeingEntry(es: seq<Edge>, fed: seq<TaskId>, a: nat) returns (i: nat)
    requires a < |Released(es, fed)|
    ensures FreedAt(es, fed, i, Released(es, fed)[a])
  {
    var n := |fed| - 1;
    if a < |Released(es, fed[..n])| {
      i := FreeingEntry(es, fed[..n], a);
      assert fed[..n][..i + 1] == fed[..i + 1];
    } else {
      i := n;
      assert fed[..n + 1] == fed;
    }
  }

  // ---- acyclic graphs ----

  lemma BehindNeedsCycle(es: seq<Edge>, x: TaskId)
    requires BehindCycle(es, x)
    ensures HasCycle(es)
  {
    var w :| WalkTo(es, w, x) && OnCycle(es, w[0]);
  }

  lemma {:induction false} NothingStuck(es: seq<Edge>, ids: seq<TaskId>)
    requires !HasCycle(es)
    ensures Stuck(es, ids) == []
  {
    if ids != [] {
      NothingStuck(es, ids[..|ids| - 1]);
      var x := ids[|ids| - 1];
      if BehindCycle(es, x) {
        BehindNeedsCycle(es, x);
      }
    }
  }

  // Without a cycle every predecessor precedes its successor.
  lemma AcyclicPredecessorsFirst(es: seq<Edge>, ids: seq<TaskId>, order: seq<TaskId>, placed: seq<TaskId>)
    requires !HasCycle(es) && IsPlacement(es, ids, order, placed)
    ensures forall k, e :: 0 <= k < |order| && e in es && e.target == order[k] ==> e.source in order[..k]
  {
    NothingStuck(es, ids);
    assert order == placed;
    forall k, e | 0 <= k < |order| && e in es && e.target == order[k] ensures e.source in order[..k] {
      assert After(es, order[..k], order[k]);
    }
  }

  // Depth grows strictly along every dependency out of a task off the cycles.
  lemma DepthGrowsAlongEdge(es: seq<Edge>, e: Edge, from: nat, to: nat)
    requires e in es && !BehindCycle(es, e.source)
    requires IsDepth(es, e.source, from) && IsDepth(es, e.target, to)
    ensures from < to
  {
    var w :| WalkTo(es, w, e.source) && Clear(es, w) && |w| - 1 == from;
    var v := w + [e.target];
    assert e == Edge(e.source, e.target);
    assert WalkTo(es, v, e.target) && Clear(es, v);
  }

  // Depth 0 marks exactly the tasks with no predecessor off the cycles.
  lemma DepthZeroIff(es: seq<Edge>, x: TaskId, d: nat)
    requires IsDepth(es, x, d)
    ensures d == 0 <==> forall e <- es :: e.target == x ==> BehindCycle(es, e.source)
  {
    if e :| e in es && e.target == x && !BehindCycle(es, e.source) {
      var v := [e.source, x];
      assert e == Edge(v[0], v[1]);
      assert WalkTo(es, v, x) && Clear(es, v);
    }
    if d > 0 {
      var w :| WalkTo(es, w, x) && Clear(es, w) && |w| - 1 == d;
      var e := Edge(w[d - 1], w[d]);
      assert e in es && !BehindCycle(es, w[d - 1]);
    }
  }

  // On an acyclic graph: exactly the tasks with no predecessor at all.
  lemma DepthZeroAcyclicIff(es: seq<Edge>, x: TaskId, d: nat)
    requires IsDepth(es, x, d) && !HasCycle(es)
    ensures d == 0 <==> forall e <- es :: e.target != x
  {
    DepthZeroIff(es, x, d);
    forall e | e in es && e.target == x ensures !BehindCycle(es, e.source) {
      if BehindCycle(es, e.source) {
        BehindNeedsCycle(es, e.source);
      }
    }
  }

  // ---- lists with repeated ids ----

  lemma {:induction false} RunsAgree(es: seq<Edge>, ids: seq<TaskId>, p: seq<TaskId>, q: seq<TaskId>, n: nat)
    requires QueueRun(es, ids, p) && QueueRun(es, ids, q) && n <= |p|
    ensures n <= |q| && p[..n] == q[..n]
  {
    hide Roots, Released, Fed;
    if n > 0 {
      var m := n - 1;
      RunsAgree(es, ids, p, q, m);
      assert Serves(es, ids, p, m);
      if m == |q| {
        Whole(q);
      } else {
        assert Serves(es, ids, q, m);
        SamePrefix(p[..n], q[..n], Roots(es, ids) + Released(es, Fed(es, p[..m])));
      }
    }
  }

  lemma SamePrefix(a: seq<TaskId>, b: seq<TaskId>, whole: seq<TaskId>)
    requires a <= whole && b <= whole && |a| == |b|
    ensures a == b
  {
  }

  lemma RunIsDetermined(es: seq<Edge>, ids: seq<TaskId>, p: seq<TaskId>, q: seq<TaskId>)
    requires QueueRun(es, ids, p) && QueueRun(es, ids, q)
    ensures p == q
  {
    hide QueueRun;
    RunsAgree(es, ids, p, q, |p|);
    RunsAgree(es, ids, q, p, |q|);
    Whole(p);
    Whole(q);
  }

  // For any list, repeated ids included, there is one order and one flag.
  lemma RowsAreDetermined(tasks: seq<CalcTask>, deps: seq<Dependency>, r: DependencyOrder, s: DependencyOrder)
    requires IsResult(tasks, deps, r) && IsResult(tasks, deps, s)
    ensures r.order == s.order && r.hasCycle == s.hasCycle
  {
    hide IsOrderOf, QueueRun, Missing, KnownEdges, Distinct;
    var ids, es := Ids(tasks), KnownEdges(Ids(tasks), deps);
    var p :| QueueRun(es, ids, p) && Shown(ids, p, r);
    var q :| QueueRun(es, ids, q) && Shown(ids, q, s);
    RunIsDetermined(es, ids, p, q);
  }

  // How often each task is placed: a root as often as it is listed, another one once, when the
  // successor lists consumed so far name it as often as its lines do.
  lemma PlacedTimes(es: seq<Edge>, ids: seq<TaskId>, p: seq<TaskId>, x: TaskId)
    requires QueueRun(es, ids, p)
    ensures multiset(p)[x] == if InDegree(es, x) == 0 then multiset(ids)[x]
                              else if multiset(Fed(es, p))[x] >= InDegree(es, x) then 1 else 0
  {
    QueuedTimes(es, ids, Fed(es, p), x);
  }

  lemma OneStep(x: TaskId, y: TaskId, w: seq<TaskId>)
    requires IsWalk([Edge(y, x)], w) && |w| > 1
    ensures w[0] == y && w[|w| - 1] == x
  {
    assert Edge(w[0], w[1]) in [Edge(y, x)];
    var n := |w| - 2;
    assert Edge(w[n], w[n + 1]) in [Edge(y, x)];
  }

  lemma OneLine(x: TaskId, y: TaskId)
    requires x != y
    ensures InDegree([Edge(y, x)], x) == 1 && !HasCycle([Edge(y, x)])
  {
    forall w | IsWalk([Edge(y, x)], w) && |w| > 1 ensures w[0] != w[|w| - 1] {
      OneStep(x, y, w);
    }
    hide IsWalk;
  }

  lemma OneDependency(ids: seq<TaskId>, x: TaskId, y: TaskId)
    requires x in ids && y in ids && x != y
    ensures KnownEdges(ids, [Dependency(x, y)]) == [Edge(y, x)]
  {
    var deps := [Dependency(x, y)];
    assert deps[..0] == [];
  }

  // A task listed twice that depends on another one raises the flag without a cycle.
  lemma RepeatRaisesFlag(tasks: seq<CalcTask>, x: TaskId, y: TaskId, r: DependencyOrder)
    requires multiset(Ids(tasks))[x] >= 2 && y in Ids(tasks) && x != y
    requires IsResult(tasks, [Dependency(x, y)], r)
    ensures r.hasCycle && !HasCycle(KnownEdges(Ids(tasks), [Dependency(x, y)]))
  {
    var ids := Ids(tasks);
    assert x in multiset(ids);
    OneDependency(ids, x, y);
    OneLine(x, y);
    var es := [Edge(y, x)];
    hide InDegree, HasCycle, KnownEdges, IsOrderOf, Missing;
    var p :| QueueRun(es, ids, p) && Shown(ids, p, r);
    PlacedTimes(es, ids, p, x);
    QueuedFits(es, ids, Fed(es, p), p);
  }

  lemma {:induction false} NoLines(ids: seq<TaskId>, deps: seq<Dependency>)
    requires forall x, y :: x in ids && y in ids ==> x == y
    ensures KnownEdges(ids, deps) == []
  {
    if deps != [] {
      NoLines(ids, deps[..|deps| - 1]);
    }
  }

  lemma {:induction false} AllRoots(ids: seq<TaskId>)
    ensures Roots([], ids) == ids
  {
    if ids != [] {
      AllRoots(ids[..|ids| - 1]);
      assert ids == ids[..|ids| - 1] + [ids[|ids| - 1]];
    }
  }

  // No id is listed twice, or there is one id only.
  predicate Trusted(ids: seq<TaskId>) {
    Distinct(ids) || forall x, y :: x in ids && y in ids ==> x == y
  }

  lemma WalkNeedsEdge(es: seq<Edge>, w: seq<TaskId>)
    requires IsWalk(es, w) && |w| > 1
    ensures es != []
  {
    assert Edge(w[0], w[1]) in es;
  }

  lemma SingleTaskResult(tasks: seq<CalcTask>, deps: seq<Dependency>, r: DependencyOrder)
    requires forall x, y :: x in Ids(tasks) && y in Ids(tasks) ==> x == y
    requires IsResult(tasks, deps, r)
    ensures !r.hasCycle && !HasCycle(KnownEdges(Ids(tasks), deps))
  {
    var ids := Ids(tasks);
    NoLines(ids, deps);
    AllRoots(ids);
    hide Roots, Released, Missing, KnownEdges, IsOrderOf, Served;
    var p :| QueueRun([], ids, p) && Shown(ids, p, r);
    forall w | IsWalk([], w) ensures |w| <= 1 {
      if |w| > 1 {
        WalkNeedsEdge([], w);
      }
    }
    hide IsWalk;
  }

  lemma TwoOfThem(ids: seq<TaskId>, i: nat, j: nat)
    requires i < j < |ids| && ids[i] == ids[j]
    ensures multiset(ids)[ids[i]] >= 2
  {
    var head, tail := ids[..j], ids[j + 1..];
    assert ids == head + [ids[j]] + tail;
    assert head[i] in multiset(head);
  }

  ghost predicate FlagRight(tasks: seq<CalcTask>, deps: seq<Dependency>) {
    forall r | IsResult(tasks, deps, r) :: r.hasCycle <==> HasCycle(KnownEdges(Ids(tasks), deps))
  }

  ghost predicate FalseAlarm(tasks: seq<CalcTask>, deps: seq<Dependency>) {
    !HasCycle(KnownEdges(Ids(tasks), deps)) && forall r | IsResult(tasks, deps, r) :: r.hasCycle
  }

  // Exactly for those lists the flag is right whatever the lines are: for every other list there
  // is a line that raises it without a cycle.
  lemma FlagTrustedIff(tasks: seq<CalcTask>)
    ensures Trusted(Ids(tasks)) ==> forall deps :: FlagRight(tasks, deps)
    ensures !Trusted(Ids(tasks)) ==> exists line :: FalseAlarm(tasks, [line])
  {
    if Trusted(Ids(tasks)) {
      forall deps ensures FlagRight(tasks, deps) {
        TrustedRight(tasks, deps);
      }
    } else {
      var line := AlarmingLine(tasks);
      assert FalseAlarm(tasks, [line]);
    }
    hide FlagRight, FalseAlarm, Trusted;
  }

  lemma TrustedRight(tasks: seq<CalcTask>, deps: seq<Dependency>)
    requires Trusted(Ids(tasks))
    ensures FlagRight(tasks, deps)
  {
    forall r | IsResult(tasks, deps, r) ensures r.hasCycle <==> HasCycle(KnownEdges(Ids(tasks), deps)) {
      if !Distinct(Ids(tasks)) {
        SingleTaskResult(tasks, deps, r);
      }
    }
    hide KnownEdges, HasCycle, IsRun, Distinct, Ids;
  }

  lemma AlarmingLine(tasks: seq<CalcTask>) returns (line: Dependency)
    requires !Trusted(Ids(tasks))
    ensures FalseAlarm(tasks, [line])
  {
    var ids := Ids(tasks);
    var i, j :| 0 <= i < j < |ids| && ids[i] == ids[j];
    TwoOfThem(ids, i, j);
    var x := ids[i];
    var y :| y in ids && y != x;
    line := Dependency(x, y);
    hide Ids, HasCycle, KnownEdges, IsResult, InDegree;
    OneDependency(ids, x, y);
    OneLine(x, y);
    forall r | IsResult(tasks, [line], r) ensures r.hasCycle {
      RepeatRaisesFlag(tasks, x, y, r);
    }
  }

  lemma LastCount(p: seq<TaskId>, a: TaskId)
    requires p != []
    ensures multiset(p)[a] == multiset(p[..|p| - 1])[a] + if p[|p| - 1] == a then 1 else 0
  {
    assert p == p[..|p| - 1] + [p[|p| - 1]];
  }

  lemma {:induction false} FedTimes(es: seq<Edge>, p: seq<TaskId>, a: TaskId, x: TaskId)
    requires Edge(a, x) in es
    ensures multiset(Fed(es, p))[x] >= multiset(p)[a]
  {
    if p != [] {
      FedLast(es, p, x);
      LastCount(p, a);
      SuccessorsMembers(es, a, x);
      hide *;
      FedTimes(es, p[..|p| - 1], a, x);
      assert x in multiset(Successors(es, a));
    }
  }

  // a before b, and b and c on each other.
  function Triangle(a: TaskId, b: TaskId, c: TaskId): seq<Edge> {
    [Edge(a, b)] + [Edge(c, b)] + [Edge(b, c)]
  }

  lemma TriangleCounts(a: TaskId, b: TaskId, c: TaskId, x: TaskId)
    requires a != b && b != c && c != a
    ensures InDegree(Triangle(a, b, c), x) == if x == b then 2 else if x == c then 1 else 0
  {
    AppendEdge([], Edge(a, b), x);
    assert [] + [Edge(a, b)] == [Edge(a, b)];
    hide InDegree, Successors;
    AppendEdge([Edge(a, b)], Edge(c, b), x);
    AppendEdge([Edge(a, b)] + [Edge(c, b)], Edge(b, c), x);
    NoneInto(x);
  }

  lemma NoneInto(x: TaskId)
    ensures InDegree([], x) == 0
  {
  }

  lemma TriangleCycle(es: seq<Edge>, b: TaskId, c: TaskId)
    requires Edge(b, c) in es && Edge(c, b) in es
    ensures HasCycle(es)
  {
    var w := [b, c, b];
    assert IsWalk(es, w);
    assert WalkTo(es, w, b);
    assert OnCycle(es, b);
  }

  lemma TriangleLines(a: TaskId, b: TaskId, c: TaskId)
    requires a != b && b != c && c != a
    ensures KnownEdges([a, a, b, c], [Dependency(b, a), Dependency(b, c), Dependency(c, b)]) == Triangle(a, b, c)
  {
    var ids, deps := [a, a, b, c], [Dependency(b, a), Dependency(b, c), Dependency(c, b)];
    Whole(deps);
    assert KnownEdges(ids, deps[..0]) + [Edge(a, b)] == [Edge(a, b)];
    hide KnownEdges;
    ReadStep(ids, deps, 0);
    ReadStep(ids, deps, 1);
    ReadStep(ids, deps, 2);
  }

  lemma RunOf(tasks: seq<CalcTask>, deps: seq<Dependency>, r: DependencyOrder) returns (p: seq<TaskId>)
    requires IsResult(tasks, deps, r)
    ensures QueueRun(KnownEdges(Ids(tasks), deps), Ids(tasks), p) && Shown(Ids(tasks), p, r)
  {
    hide QueueRun, KnownEdges, Missing, IsOrderOf, Distinct;
    p :| QueueRun(KnownEdges(Ids(tasks), deps), Ids(tasks), p) && Shown(Ids(tasks), p, r);
  }

  // The flag can also miss a cycle: each copy of a root consumes its successor list again, so with
  // a listed twice the cycle of b and c is placed as if it were none.
  lemma RepeatHidesCycle(a: TaskId, b: TaskId, c: TaskId, r: DependencyOrder)
    requires a != b && b != c && c != a
    requires IsResult([CalcTask(a), CalcTask(a), CalcTask(b), CalcTask(c)],
                      [Dependency(b, a), Dependency(b, c), Dependency(c, b)], r)
    ensures !r.hasCycle
    ensures HasCycle(KnownEdges([a, a, b, c], [Dependency(b, a), Dependency(b, c), Dependency(c, b)]))
  {
    var tasks := [CalcTask(a), CalcTask(a), CalcTask(b), CalcTask(c)];
    assert Ids(tasks) == [a, a, b, c];
    TriangleLines(a, b, c);
    assert Edge(b, c) in Triangle(a, b, c) && Edge(c, b) in Triangle(a, b, c);
    hide KnownEdges, HasCycle, InDegree, IsResult, Missing, QueueRun, Ids, Triangle;
    TriangleCycle(Triangle(a, b, c), b, c);
    var p := RunOf(tasks, [Dependency(b, a), Dependency(b, c), Dependency(c, b)], r);
    TriangleRun(a, b, c, p);
  }

  lemma TriangleRun(a: TaskId, b: TaskId, c: TaskId, p: seq<TaskId>)
    requires a != b && b != c && c != a && QueueRun(Triangle(a, b, c), [a, a, b, c], p)
    ensures |p| >= 4
  {
    assert Edge(a, b) in Triangle(a, b, c) && Edge(b, c) in Triangle(a, b, c);
    hide InDegree, QueueRun, Triangle;
    TriangleCounts(a, b, c, a);
    TriangleCounts(a, b, c, b);
    TriangleCounts(a, b, c, c);
    assert multiset([a, a, b, c])[a] == 2;
    TrianglePlaced(Triangle(a, b, c), [a, a, b, c], p, a, b, c);
  }

  lemma TrianglePlaced(es: seq<Edge>, ids: seq<TaskId>, p: seq<TaskId>, a: TaskId, b: TaskId, c: TaskId)
    requires a != b && b != c && c != a && QueueRun(es, ids, p)
    requires Edge(a, b) in es && Edge(b, c) in es && multiset(ids)[a] >= 2
    requires InDegree(es, a) == 0 && InDegree(es, b) == 2 && InDegree(es, c) == 1
    ensures |p| >= 4
  {
    hide InDegree, QueueRun, Fed;
    PlacedTimes(es, ids, p, a);
    FedTimes(es, p, a, b);
    PlacedTimes(es, ids, p, b);
    FedTimes(es, p, b, c);
    PlacedTimes(es, ids, p, c);
    assert multiset{a, a, b, c} <= multiset(p);
    assert multiset(p) == multiset{a, a, b, c} + (multiset(p) - multiset{a, a, b, c});
  }
}
