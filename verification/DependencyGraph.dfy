// The task graph behind the gantt view: which dependency lines count, walks and
// cycles over them, and the queue discipline that fixes the row order.
module DependencyGraph {

  datatype TaskId = TaskId(name: string)

  // "taskId depends on dependsOnId", so the edge points dependsOnId -> taskId.
  datatype Dependency = Dependency(taskId: TaskId, dependsOnId: TaskId)

  datatype Edge = Edge(source: TaskId, target: TaskId)

  predicate Distinct(ids: seq<TaskId>) {
    forall i, j :: 0 <= i < j < |ids| ==> ids[i] != ids[j]
  }

  predicate Counts(ids: seq<TaskId>, dep: Dependency) {
    dep.taskId in ids && dep.dependsOnId in ids && dep.taskId != dep.dependsOnId
  }

  // The lines that count, in line order: both ends known, no self-edge.
  function KnownEdges(ids: seq<TaskId>, deps: seq<Dependency>): (es: seq<Edge>)
    ensures forall e <- es :: e.source in ids && e.target in ids && e.source != e.target
  {
    if deps == [] then []
    else
      var dep := deps[|deps| - 1];
      KnownEdges(ids, deps[..|deps| - 1]) + if Counts(ids, dep) then [Edge(dep.dependsOnId, dep.taskId)] else []
  }

  // What the successor lists and the indegree map hold once every line is read.
  function Successors(es: seq<Edge>, p: TaskId): seq<TaskId> {
    if es == [] then []
    else Successors(es[..|es| - 1], p) + if es[|es| - 1].source == p then [es[|es| - 1].target] else []
  }

  lemma {:induction false} SuccessorsMembers(es: seq<Edge>, p: TaskId, x: TaskId)
    ensures x in Successors(es, p) <==> Edge(p, x) in es
  {
    if es != [] {
      var n := |es| - 1;
      SuccessorsMembers(es[..n], p, x);
      assert es == es[..n] + [es[n]];
    }
  }

  function InDegree(es: seq<Edge>, x: TaskId): nat {
    if es == [] then 0
    else InDegree(es[..|es| - 1], x) + if es[|es| - 1].target == x then 1 else 0
  }

  lemma Assoc<T>(a: seq<T>, b: seq<T>, x: T)
    ensures a + (b + [x]) == a + b + [x]
  {
  }

  lemma TakeStep<T>(s: seq<T>, j: nat)
    requires j < |s|
    ensures s[..j + 1] == s[..j] + [s[j]]
  {
  }

  lemma Whole<T>(s: seq<T>)
    ensures s[..|s|] == s && s[..0] == []
  {
  }

  lemma ReadStep(ids: seq<TaskId>, deps: seq<Dependency>, i: nat)
    requires i < |deps|
    ensures var e := Edge(deps[i].dependsOnId, deps[i].taskId);
            var before := KnownEdges(ids, deps[..i]);
            KnownEdges(ids, deps[..i + 1]) == if Counts(ids, deps[i]) then before + [e] else before
  {
    assert deps[..i + 1][..i] == deps[..i];
  }

  lemma AppendEdge(es: seq<Edge>, e: Edge, x: TaskId)
    ensures Successors(es + [e], x) == Successors(es, x) + if e.source == x then [e.target] else []
    ensures InDegree(es + [e], x) == InDegree(es, x) + if e.target == x then 1 else 0
  {
    assert (es + [e])[..|es|] == es;
  }

  // ---- walks and cycles ----

  predicate IsWalk(es: seq<Edge>, w: seq<TaskId>) {
    |w| > 0 && forall i :: 0 <= i < |w| - 1 ==> Edge(w[i], w[i + 1]) in es
  }

  predicate WalkTo(es: seq<Edge>, w: seq<TaskId>, x: TaskId) {
    IsWalk(es, w) && w[|w| - 1] == x
  }

  ghost predicate OnCycle(es: seq<Edge>, x: TaskId) {
    exists w :: WalkTo(es, w, x) && |w| > 1 && w[0] == x
  }

  ghost predicate HasCycle(es: seq<Edge>) {
    exists x :: OnCycle(es, x)
  }

  // On a cycle, or reachable from one.
  ghost predicate BehindCycle(es: seq<Edge>, x: TaskId) {
    exists w :: WalkTo(es, w, x) && OnCycle(es, w[0])
  }

  ghost function Stuck(es: seq<Edge>, ids: seq<TaskId>): seq<TaskId> {
    if ids == [] then []
    else Stuck(es, ids[..|ids| - 1]) + if BehindCycle(es, ids[|ids| - 1]) then [ids[|ids| - 1]] else []
  }

  predicate After(es: seq<Edge>, before: seq<TaskId>, x: TaskId) {
    forall e <- es :: e.target == x ==> e.source in before
  }

  // Every predecessor of a placed task is placed before it.
  predicate Topological(es: seq<Edge>, order: seq<TaskId>) {
    forall k {:trigger After(es, order[..k], order[k])} :: 0 <= k < |order| ==> After(es, order[..k], order[k])
  }

  // d is the length of the longest walk that reaches x through tasks off every cycle.
  ghost predicate Clear(es: seq<Edge>, w: seq<TaskId>) {
    forall i :: 0 <= i < |w| - 1 ==> !BehindCycle(es, w[i])
  }

  ghost predicate IsDepth(es: seq<Edge>, x: TaskId, d: nat) {
    && (exists w :: WalkTo(es, w, x) && Clear(es, w) && |w| - 1 == d)
    && (forall w :: WalkTo(es, w, x) && Clear(es, w) ==> |w| - 1 <= d)
  }

  // ---- the queue discipline ----

  function Roots(es: seq<Edge>, ids: seq<TaskId>): seq<TaskId> {
    if ids == [] then []
    else
      var x := ids[|ids| - 1];
      Roots(es, ids[..|ids| - 1]) + if InDegree(es, x) == 0 then [x] else []
  }

  // Successor entries consumed once the tasks of `order` are processed, in order.
  function Fed(es: seq<Edge>, order: seq<TaskId>): seq<TaskId> {
    if order == [] then []
    else Fed(es, order[..|order| - 1]) + Successors(es, order[|order| - 1])
  }

  // Tasks freed by those entries: each at its last incoming edge.
  function Released(es: seq<Edge>, fed: seq<TaskId>): seq<TaskId> {
    if fed == [] then []
    else
      var x := fed[|fed| - 1];
      Released(es, fed[..|fed| - 1]) + if multiset(fed)[x] == InDegree(es, x) then [x] else []
  }

  // First in, first out: roots in source order, then tasks as their last dependency clears.
  predicate QueueOrder(es: seq<Edge>, ids: seq<TaskId>, order: seq<TaskId>) {
    order == Roots(es, ids) + Released(es, Fed(es, order))
  }

  lemma WalkExtend(es: seq<Edge>, w: seq<TaskId>, x: TaskId, y: TaskId)
    requires WalkTo(es, w, x) && Edge(x, y) in es
    ensures WalkTo(es, w + [y], y)
  {
    var v := w + [y];
    forall i | 0 <= i < |v| - 1 ensures Edge(v[i], v[i + 1]) in es {
      if i < |w| - 1 {
        assert v[i] == w[i] && v[i + 1] == w[i + 1];
      }
    }
  }

  // ---- a topologically placed task is not behind a cycle ----

  lemma {:induction false} WalkDescends(es: seq<Edge>, order: seq<TaskId>, w: seq<TaskId>, k: nat) returns (j: nat)
    requires Topological(es, order) && k < |order| && WalkTo(es, w, order[k])
    ensures j <= k && order[j] == w[0] && (|w| > 1 ==> j < k)
    decreases |w|
  {
    if |w| == 1 {
      j := k;
    } else {
      var p := w[|w| - 2];
      assert Edge(p, order[k]) in es && After(es, order[..k], order[k]);
      assert p in order[..k];
      var i :| 0 <= i < k && order[i] == p;
      j := WalkDescends(es, order, w[..|w| - 1], i);
    }
  }

  lemma PlacedNotBehindCycle(es: seq<Edge>, order: seq<TaskId>, k: nat)
    requires Topological(es, order) && Distinct(order) && k < |order|
    ensures !BehindCycle(es, order[k])
  {
    if BehindCycle(es, order[k]) {
      var w :| WalkTo(es, w, order[k]) && OnCycle(es, w[0]);
      var j := WalkDescends(es, order, w, k);
      var c :| WalkTo(es, c, w[0]) && |c| > 1 && c[0] == w[0];
      var i := WalkDescends(es, order, c, j);
      assert false;
    }
  }

  // ---- a set in which everyone waits on a member hides a cycle ----

  ghost predicate Waits(es: seq<Edge>, waiting: set<TaskId>, x: TaskId) {
    exists p :: p in waiting && Edge(p, x) in es
  }

  lemma {:induction false} BackwardWalk(es: seq<Edge>, waiting: set<TaskId>, x: TaskId, n: nat) returns (w: seq<TaskId>)
    requires x in waiting && n > 0
    requires forall u {:trigger Waits(es, waiting, u)} :: u in waiting ==> Waits(es, waiting, u)
    ensures |w| == n && WalkTo(es, w, x) && forall i :: 0 <= i < n ==> w[i] in waiting
    decreases n
  {
    if n == 1 {
      w := [x];
    } else {
      assert Waits(es, waiting, x);
      var p :| p in waiting && Edge(p, x) in es;
      var v := BackwardWalk(es, waiting, p, n - 1);
      w := v + [x];
    }
  }

  lemma {:induction false} DistinctFits(w: seq<TaskId>, s: set<TaskId>)
    requires Distinct(w) && forall i :: 0 <= i < |w| ==> w[i] in s
    ensures |w| <= |s|
  {
    if w != [] {
      var n := |w| - 1;
      DistinctFits(w[..n], s - {w[n]});
    }
  }

  lemma RepeatIsCycle(es: seq<Edge>, w: seq<TaskId>, i: nat, j: nat)
    requires IsWalk(es, w) && i < j < |w| && w[i] == w[j]
    ensures BehindCycle(es, w[|w| - 1])
  {
    var c := w[i..j + 1];
    assert forall k :: 0 <= k < |c| ==> c[k] == w[i + k];
    assert WalkTo(es, c, w[i]);
    assert OnCycle(es, w[i]);
    var tail := w[i..];
    assert forall k :: 0 <= k < |tail| ==> tail[k] == w[i + k];
    assert WalkTo(es, tail, w[|w| - 1]);
  }

  lemma WaitingIsBehindCycle(es: seq<Edge>, waiting: set<TaskId>, x: TaskId)
    requires x in waiting
    requires forall u {:trigger Waits(es, waiting, u)} :: u in waiting ==> Waits(es, waiting, u)
    ensures BehindCycle(es, x)
  {
    var w := BackwardWalk(es, waiting, x, |waiting| + 1);
    if Distinct(w) {
      DistinctFits(w, waiting);
    }
    var i, j :| 0 <= i < j < |w| && w[i] == w[j];
    RepeatIsCycle(es, w, i, j);
  }

  // ---- depth ----

  lemma {:induction false} WalkWithinDepth(es: seq<Edge>, depth: map<TaskId, nat>, placed: set<TaskId>,
                                           w: seq<TaskId>, x: TaskId)
    requires WalkTo(es, w, x) && x in depth
    requires forall i :: 0 <= i < |w| - 1 ==> w[i] in placed
    requires forall e <- es :: e.source in depth && e.target in depth
    requires forall e <- es :: e.source in placed ==> depth[e.target] >= depth[e.source] + 1
    ensures |w| - 1 <= depth[x]
    decreases |w|
  {
    if |w| > 1 {
      var n := |w| - 1;
      assert Edge(w[n - 1], w[n]) in es;
      WalkWithinDepth(es, depth, placed, w[..n], w[n - 1]);
    }
  }

  // ---- counting consumed entries ----

  // Edges into x whose source is not in `order`.
  function Unfed(es: seq<Edge>, order: seq<TaskId>, x: TaskId): nat {
    if es == [] then 0
    else
      var e := es[|es| - 1];
      Unfed(es[..|es| - 1], order, x) + if e.target == x && e.source !in order then 1 else 0
  }

  lemma {:induction false} UnfedStep(es: seq<Edge>, order: seq<TaskId>, p: TaskId, x: TaskId)
    requires p !in order
    ensures Unfed(es, order + [p], x) + multiset(Successors(es, p))[x] == Unfed(es, order, x)
  {
    if es != [] {
      UnfedStep(es[..|es| - 1], order, p, x);
    }
  }

  lemma {:induction false} UnfedAll(es: seq<Edge>, x: TaskId)
    ensures Unfed(es, [], x) == InDegree(es, x)
  {
    if es != [] {
      UnfedAll(es[..|es| - 1], x);
    }
  }

  lemma {:induction false} UnfedZero(es: seq<Edge>, order: seq<TaskId>, x: TaskId)
    ensures Unfed(es, order, x) == 0 <==> After(es, order, x)
  {
    if es != [] {
      var n := |es| - 1;
      UnfedZero(es[..n], order, x);
      assert es == es[..n] + [es[n]];
    }
  }

  lemma FedSplit(es: seq<Edge>, done: seq<TaskId>, id: TaskId, j: nat)
    requires j < |Successors(es, id)|
    ensures var nexts := Successors(es, id);
            var fed := Fed(es, done) + nexts[..j + 1];
            fed == Fed(es, done) + nexts[..j] + [nexts[j]] && Fed(es, done + [id]) == fed + nexts[j + 1..]
  {
    assert (done + [id])[..|done|] == done;
    var nexts := Successors(es, id);
    TakeStep(nexts, j);
    Assoc(Fed(es, done), nexts[..j], nexts[j]);
    hide Successors;
    Rejoin(Fed(es, done), nexts, j + 1);
  }

  lemma Rejoin<T>(a: seq<T>, b: seq<T>, j: nat)
    requires j <= |b|
    ensures a + b == a + b[..j] + b[j..]
  {
  }

  lemma FedWhole(es: seq<Edge>, done: seq<TaskId>, id: TaskId)
    ensures Fed(es, done + [id]) == Fed(es, done) + Successors(es, id)[..|Successors(es, id)|]
    ensures Fed(es, done) == Fed(es, done) + Successors(es, id)[..0]
  {
    assert (done + [id])[..|done|] == done;
  }

  lemma FedLast(es: seq<Edge>, order: seq<TaskId>, x: TaskId)
    requires order != []
    ensures var n := |order| - 1;
            multiset(Fed(es, order))[x] == multiset(Fed(es, order[..n]))[x] + multiset(Successors(es, order[n]))[x]
  {
    hide Successors;
  }

  lemma LastIsNew(order: seq<TaskId>)
    requires Distinct(order) && order != []
    ensures var n := |order| - 1;
            Distinct(order[..n]) && order[n] !in order[..n] && order[..n] + [order[n]] == order
  {
  }

  lemma {:induction false} FedCount(es: seq<Edge>, order: seq<TaskId>, x: TaskId)
    requires Distinct(order)
    ensures multiset(Fed(es, order))[x] + Unfed(es, order, x) == InDegree(es, x)
  {
    if order == [] {
      UnfedAll(es, x);
    } else {
      var n := |order| - 1;
      LastIsNew(order);
      FedLast(es, order, x);
      hide *;
      FedCount(es, order[..n], x);
      UnfedStep(es, order[..n], order[n], x);
    }
  }

  // ---- sequences without repeats ----

  lemma {:induction false} DistinctMultiset(a: seq<TaskId>, x: TaskId)
    requires Distinct(a)
    ensures multiset(a)[x] == if x in a then 1 else 0
  {
    if a != [] {
      var n := |a| - 1;
      DistinctMultiset(a[..n], x);
      assert a == a[..n] + [a[n]];
      assert x in a <==> x in a[..n] || x == a[n];
      assert x in a[..n] && x == a[n] ==> false;
    }
  }

  lemma DistinctPermutation(a: seq<TaskId>, b: seq<TaskId>)
    requires Distinct(a) && Distinct(b) && forall x :: x in a <==> x in b
    ensures multiset(a) == multiset(b)
  {
    forall x ensures multiset(a)[x] == multiset(b)[x] {
      DistinctMultiset(a, x);
      DistinctMultiset(b, x);
    }
  }

  lemma {:induction false} StuckFacts(es: seq<Edge>, ids: seq<TaskId>)
    requires Distinct(ids)
    ensures Distinct(Stuck(es, ids))
    ensures forall x :: x in Stuck(es, ids) <==> x in ids && BehindCycle(es, x)
  {
    if ids != [] {
      var n := |ids| - 1;
      StuckFacts(es, ids[..n]);
      assert ids == ids[..n] + [ids[n]];
    }
  }

  lemma {:induction false} RootsMembers(es: seq<Edge>, ids: seq<TaskId>)
    requires Distinct(ids)
    ensures Distinct(Roots(es, ids))
    ensures forall x :: x in Roots(es, ids) <==> x in ids && InDegree(es, x) == 0
  {
    if ids != [] {
      var n := |ids| - 1;
      RootsMembers(es, ids[..n]);
      assert ids == ids[..n] + [ids[n]];
    }
  }

  lemma {:induction false} ReleasedMembers(es: seq<Edge>, fed: seq<TaskId>)
    ensures Distinct(Released(es, fed))
    ensures forall x :: x in Released(es, fed) <==> 1 <= InDegree(es, x) <= multiset(fed)[x]
  {
    if fed != [] {
      var n := |fed| - 1;
      ReleasedMembers(es, fed[..n]);
      assert fed == fed[..n] + [fed[n]];
      assert forall x :: multiset(fed)[x] == multiset(fed[..n])[x] + if x == fed[n] then 1 else 0;
    }
  }
}
