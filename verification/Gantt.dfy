// Row order of the gantt view: Kahn's algorithm over the dependency lines, with the
// longest-path depth and the fallback for graphs with a cycle.
module Gantt {
  import opened DependencyGraph

  datatype CalcTask = CalcTask(id: TaskId)

  datatype DependencyOrder = DependencyOrder(order: seq<TaskId>, depth: map<TaskId, nat>, hasCycle: bool)

  function Ids(tasks: seq<CalcTask>): (ids: seq<TaskId>)
    ensures |ids| == |tasks|
  {
    seq(|tasks|, i requires 0 <= i < |tasks| => tasks[i].id)
  }

  ghost predicate Within(es: seq<Edge>, ids: seq<TaskId>) {
    forall e <- es :: e.source in ids && e.target in ids && e.source != e.target
  }

  // ---- reading the dependency lines ----

  ghost predicate Tallied(es: seq<Edge>, ids: seq<TaskId>, indegree: map<TaskId, int>,
                          successors: map<TaskId, seq<TaskId>>) {
    forall x <- ids :: x in indegree && x in successors && indegree[x] == InDegree(es, x)
        && successors[x] == Successors(es, x)
  }

  lemma TallyStep(es: seq<Edge>, ids: seq<TaskId>, p: TaskId, x: TaskId, indegree: map<TaskId, int>,
                  successors: map<TaskId, seq<TaskId>>)
    requires Tallied(es, ids, indegree, successors) && p in ids && x in ids
    ensures x in indegree && p in successors
    ensures Tallied(es + [Edge(p, x)], ids, indegree[x := indegree[x] + 1], successors[p := successors[p] + [x]])
  {
    forall y | y in ids
      ensures successors[p := successors[p] + [x]][y] == Successors(es + [Edge(p, x)], y)
      ensures indegree[x := indegree[x] + 1][y] == InDegree(es + [Edge(p, x)], y)
    {
      AppendEdge(es, Edge(p, x), y);
    }
  }

  lemma TallyStart(ids: seq<TaskId>, indegree: map<TaskId, int>, successors: map<TaskId, seq<TaskId>>)
    requires forall x <- ids :: x in indegree && x in successors && indegree[x] == 0 && successors[x] == []
    ensures Tallied(KnownEdges(ids, []), ids, indegree, successors)
  {
  }

  lemma ReadOne(ids: seq<TaskId>, deps: seq<Dependency>, i: nat, indegree: map<TaskId, int>,
                successors: map<TaskId, seq<TaskId>>)
    requires i < |deps| && Tallied(KnownEdges(ids, deps[..i]), ids, indegree, successors)
    ensures Counts(ids, deps[i]) ==>
              var p, x := deps[i].dependsOnId, deps[i].taskId;
              && p in successors && x in indegree
              && Tallied(KnownEdges(ids, deps[..i + 1]), ids, indegree[x := indegree[x] + 1],
                         successors[p := successors[p] + [x]])
    ensures !Counts(ids, deps[i]) ==> Tallied(KnownEdges(ids, deps[..i + 1]), ids, indegree, successors)
  {
    hide KnownEdges, Tallied;
    ReadStep(ids, deps, i);
    if Counts(ids, deps[i]) {
      TallyStep(KnownEdges(ids, deps[..i]), ids, deps[i].dependsOnId, deps[i].taskId, indegree, successors);
    }
  }

  method ReadLines(ids: seq<TaskId>, deps: seq<Dependency>)
    returns (indegree: map<TaskId, int>, successors: map<TaskId, seq<TaskId>>)
    ensures Tallied(KnownEdges(ids, deps), ids, indegree, successors)
  {
    indegree := map x | x in ids :: 0;
    successors := map x | x in ids :: [];
    TallyStart(ids, indegree, successors);
    Whole(deps);
    hide Tallied, KnownEdges, Counts;
    for i := 0 to |deps|
      invariant Tallied(KnownEdges(ids, deps[..i]), ids, indegree, successors)
    {
      var dep := deps[i];
      ReadOne(ids, deps, i, indegree, successors);
      if Counts(ids, dep) {
        successors := successors[dep.dependsOnId := successors[dep.dependsOnId] + [dep.taskId]];
        indegree := indegree[dep.taskId := indegree[dep.taskId] + 1];
      }
    }
  }

  // ---- invariants of the main loop ----

  // The indegree map counts the edges not consumed yet.
  ghost predicate Counted(es: seq<Edge>, ids: seq<TaskId>, fed: seq<TaskId>, indegree: map<TaskId, int>) {
    forall x <- ids :: x in indegree && indegree[x] == InDegree(es, x) - multiset(fed)[x]
  }

  // w reaches x through placed tasks.
  ghost predicate Way(es: seq<Edge>, placed: seq<TaskId>, w: seq<TaskId>, x: TaskId) {
    WalkTo(es, w, x) && forall i :: 0 <= i < |w| - 1 ==> w[i] in placed
  }

  ghost predicate Far(es: seq<Edge>, placed: seq<TaskId>, x: TaskId, d: nat) {
    exists w :: Way(es, placed, w, x) && |w| - 1 == d
  }

  // Every depth is the length of a walk through placed tasks.
  ghost predicate Reached(es: seq<Edge>, ids: seq<TaskId>, placed: seq<TaskId>, depth: map<TaskId, nat>) {
    forall x <- ids :: x in depth && Far(es, placed, x, depth[x])
  }

  // Edges out of `full` and the first entries of id's list have pushed their target down.
  ghost predicate Pushed(es: seq<Edge>, full: seq<TaskId>, id: TaskId, part: seq<TaskId>, depth: map<TaskId, nat>)
    requires forall e <- es :: e.source in depth && e.target in depth
  {
    forall e <- es :: e.source in full || (e.source == id && e.target in part)
        ==> depth[e.target] >= depth[e.source] + 1
  }

  ghost predicate Relaxed(es: seq<Edge>, ids: seq<TaskId>, full: seq<TaskId>, id: TaskId, part: seq<TaskId>,
                          placed: seq<TaskId>, depth: map<TaskId, nat>)
    requires Within(es, ids)
  {
    && Reached(es, ids, placed, depth)
    && Pushed(es, full, id, part, depth)
  }

  function Later(d: nat, from: nat): nat {
    if d >= from + 1 then d else from + 1
  }

  lemma CountStep(es: seq<Edge>, ids: seq<TaskId>, fed: seq<TaskId>, next: TaskId, indegree: map<TaskId, int>)
    requires Counted(es, ids, fed, indegree) && next in ids
    ensures Counted(es, ids, fed + [next], indegree[next := indegree[next] - 1])
  {
    assert forall x :: multiset(fed + [next])[x] == multiset(fed)[x] + if x == next then 1 else 0;
  }

  lemma ReleasedAppend(es: seq<Edge>, fed: seq<TaskId>, x: TaskId)
    ensures Released(es, fed + [x]) == if multiset(fed)[x] + 1 == InDegree(es, x) then Released(es, fed) + [x]
            else Released(es, fed)
  {
    assert (fed + [x])[..|fed|] == fed;
    assert multiset(fed + [x])[x] == multiset(fed)[x] + 1;
    hide InDegree;
  }

  lemma ReleaseStep(es: seq<Edge>, ids: seq<TaskId>, fed: seq<TaskId>, next: TaskId, q: seq<TaskId>)
    requires q == Roots(es, ids) + Released(es, fed)
    ensures Roots(es, ids) + Released(es, fed + [next]) == if multiset(fed)[next] + 1 == InDegree(es, next)
            then q + [next] else q
  {
    hide Released, Roots, InDegree;
    ReleasedAppend(es, fed, next);
    Assoc(Roots(es, ids), Released(es, fed), next);
  }

  // The queue after an entry for next was consumed, with `left` of them open before.
  function Joined(queue: seq<TaskId>, next: TaskId, left: int): seq<TaskId> {
    if left == 1 then queue + [next] else queue
  }

  lemma FarOn(es: seq<Edge>, placed: seq<TaskId>, id: TaskId, d: nat, next: TaskId)
    requires Far(es, placed, id, d) && Edge(id, next) in es && id in placed
    ensures Far(es, placed, next, d + 1)
  {
    var w :| Way(es, placed, w, id) && |w| - 1 == d;
    WalkExtend(es, w, id, next);
    hide IsWalk;
    assert w[|w| - 1] == id;
    assert Way(es, placed, w + [next], next);
  }

  lemma ReachStep(es: seq<Edge>, ids: seq<TaskId>, id: TaskId, next: TaskId, placed: seq<TaskId>,
                  depth: map<TaskId, nat>)
    requires Within(es, ids) && Reached(es, ids, placed, depth)
    requires Edge(id, next) in es && id in placed
    ensures id in depth && next in depth
    ensures Reached(es, ids, placed, depth[next := Later(depth[next], depth[id])])
  {
    hide Far;
    assert id in ids && next in ids;
    FarOn(es, placed, id, depth[id], next);
  }

  lemma PushStep(es: seq<Edge>, full: seq<TaskId>, id: TaskId, part: seq<TaskId>, next: TaskId, placed: seq<TaskId>,
                 depth: map<TaskId, nat>)
    requires forall e <- es :: e.source in depth && e.target in depth
    requires Pushed(es, full, id, part, depth) && Edge(id, next) in es && id in placed && next !in placed
    requires forall x <- full :: x in placed
    ensures Pushed(es, full, id, part + [next], depth[next := Later(depth[next], depth[id])])
  {
    var depth' := depth[next := Later(depth[next], depth[id])];
    forall e | e in es && (e.source in full || (e.source == id && e.target in part + [next]))
      ensures depth'[e.target] >= depth'[e.source] + 1
    {
      assert e.source in placed;
    }
  }

  lemma RelaxStep(es: seq<Edge>, ids: seq<TaskId>, full: seq<TaskId>, id: TaskId, part: seq<TaskId>, next: TaskId,
                  placed: seq<TaskId>, depth: map<TaskId, nat>)
    requires Within(es, ids) && Relaxed(es, ids, full, id, part, placed, depth)
    requires Edge(id, next) in es && id in placed && next !in placed
    requires forall x <- full :: x in placed
    ensures Relaxed(es, ids, full, id, part + [next], placed, depth[next := Later(depth[next], depth[id])])
  {
    assert forall e <- es :: e.source in depth && e.target in depth;
    hide Pushed, Reached;
    ReachStep(es, ids, id, next, placed, depth);
    PushStep(es, full, id, part, next, placed, depth);
  }

  // The first j entries of id's list.
  function Part(es: seq<Edge>, id: TaskId, j: nat): seq<TaskId>
    requires j <= |Successors(es, id)|
  {
    Successors(es, id)[..j]
  }

  // The entries consumed by then, with the tasks of `done` processed before.
  function FedUpTo(es: seq<Edge>, done: seq<TaskId>, id: TaskId, j: nat): seq<TaskId>
    requires j <= |Successors(es, id)|
  {
    Fed(es, done) + Part(es, id, j)
  }

  function Lined(done: seq<TaskId>, id: TaskId, queue: seq<TaskId>): seq<TaskId> {
    done + [id] + queue
  }

  lemma FedOn(es: seq<Edge>, done: seq<TaskId>, id: TaskId, j: nat) returns (rest: seq<TaskId>)
    requires j < |Successors(es, id)|
    ensures var next := Successors(es, id)[j];
            && Part(es, id, j + 1) == Part(es, id, j) + [next]
            && FedUpTo(es, done, id, j + 1) == FedUpTo(es, done, id, j) + [next]
    ensures Fed(es, done + [id]) == FedUpTo(es, done, id, j + 1) + rest
  {
    hide Successors, Fed;
    FedSplit(es, done, id, j);
    TakeStep(Successors(es, id), j);
    rest := Successors(es, id)[j + 1..];
  }

  lemma FedEnds(es: seq<Edge>, done: seq<TaskId>, id: TaskId)
    ensures Part(es, id, 0) == [] && Part(es, id, |Successors(es, id)|) == Successors(es, id)
    ensures FedUpTo(es, done, id, 0) == Fed(es, done)
    ensures FedUpTo(es, done, id, |Successors(es, id)|) == Fed(es, done + [id])
  {
    FedWhole(es, done, id);
    Whole(Successors(es, id));
    hide Successors, Fed;
  }

  lemma LinedOn(done: seq<TaskId>, id: TaskId, queue: seq<TaskId>, next: TaskId, left: int)
    ensures Lined(done, id, Joined(queue, next, left)) == Joined(Lined(done, id, queue), next, left)
    ensures done + [id] <= Lined(done, id, queue)
  {
    Assoc(done + [id], queue, next);
  }

  lemma RelaxedKey(es: seq<Edge>, ids: seq<TaskId>, full: seq<TaskId>, id: TaskId, part: seq<TaskId>,
                   placed: seq<TaskId>, depth: map<TaskId, nat>, a: TaskId)
    requires Within(es, ids) && Relaxed(es, ids, full, id, part, placed, depth) && a in ids
    ensures a in depth
  {
  }

  lemma ConsumeStep(es: seq<Edge>, ids: seq<TaskId>, done: seq<TaskId>, id: TaskId, j: nat, depth: map<TaskId, nat>)
    requires Within(es, ids) && id in ids && j < |Successors(es, id)| && Successors(es, id)[j] !in done + [id]
    requires Relaxed(es, ids, done, id, Part(es, id, j), done + [id], depth)
    ensures var next := Successors(es, id)[j];
            && next in depth && id in depth
            && Relaxed(es, ids, done, id, Part(es, id, j + 1), done + [id],
                       depth[next := Later(depth[next], depth[id])])
  {
    var next, part := Successors(es, id)[j], Part(es, id, j);
    hide *;
    SuccessorEdge(es, ids, id, j);
    RelaxedKey(es, ids, done, id, part, done + [id], depth, id);
    RelaxedKey(es, ids, done, id, part, done + [id], depth, next);
    var rest := FedOn(es, done, id, j);
    RelaxStep(es, ids, done, id, part, next, done + [id], depth);
  }

  // ---- what holds for any list, repeated ids included ----

  // q is the roots as often as they are listed, then the tasks the consumed entries have released.
  ghost predicate Queued(es: seq<Edge>, ids: seq<TaskId>, fed: seq<TaskId>, q: seq<TaskId>,
                         indegree: map<TaskId, int>, depth: map<TaskId, nat>) {
    && Counted(es, ids, fed, indegree)
    && q == Roots(es, ids) + Released(es, fed)
    && forall x <- ids :: x in depth
  }

  lemma QueuedStep(es: seq<Edge>, ids: seq<TaskId>, fed: seq<TaskId>, q: seq<TaskId>, indegree: map<TaskId, int>,
                   depth: map<TaskId, nat>, next: TaskId, d: nat)
    requires Queued(es, ids, fed, q, indegree, depth) && next in ids
    ensures Queued(es, ids, fed + [next], Joined(q, next, indegree[next]),
                   indegree[next := indegree[next] - 1], depth[next := d])
  {
    CountStep(es, ids, fed, next, indegree);
    assert indegree[next] == InDegree(es, next) - multiset(fed)[next];
    hide Counted, Roots, Released, InDegree;
    ReleaseStep(es, ids, fed, next, q);
  }

  lemma {:induction false} EdgeInto(es: seq<Edge>, x: TaskId)
    requires InDegree(es, x) >= 1
    ensures exists e <- es :: e.target == x
  {
    var n := |es| - 1;
    if es[n].target != x {
      EdgeInto(es[..n], x);
      var e :| e in es[..n] && e.target == x;
      assert e in es;
    } else {
      assert es[n] in es;
    }
  }

  lemma {:induction false} RootsCount(es: seq<Edge>, ids: seq<TaskId>, x: TaskId)
    ensures multiset(Roots(es, ids))[x] == if InDegree(es, x) == 0 then multiset(ids)[x] else 0
  {
    if ids != [] {
      var n := |ids| - 1;
      RootsCount(es, ids[..n], x);
      assert ids == ids[..n] + [ids[n]];
    }
    hide InDegree;
  }

  // Roots are queued as often as they are listed, other tasks once when their last entry is consumed.
  lemma QueuedTimes(es: seq<Edge>, ids: seq<TaskId>, fed: seq<TaskId>, x: TaskId)
    ensures multiset(Roots(es, ids) + Released(es, fed))[x]
         == if InDegree(es, x) == 0 then multiset(ids)[x] else if multiset(fed)[x] >= InDegree(es, x) then 1 else 0
  {
    RootsCount(es, ids, x);
    ReleasedMembers(es, fed);
    DistinctMultiset(Released(es, fed), x);
    hide InDegree, Roots, Released, Distinct;
  }

  lemma QueuedFits(es: seq<Edge>, ids: seq<TaskId>, fed: seq<TaskId>, q: seq<TaskId>)
    requires Within(es, ids) && q == Roots(es, ids) + Released(es, fed)
    ensures multiset(q) <= multiset(ids) && |q| <= |ids| && (|q| == |ids| ==> multiset(q) == multiset(ids))
    ensures forall x <- q :: x in ids
  {
    forall x ensures multiset(q)[x] <= multiset(ids)[x] {
      QueuedTimes(es, ids, fed, x);
      if InDegree(es, x) >= 1 {
        EdgeInto(es, x);
        assert x in ids;
      }
    }
    hide InDegree, Roots, Released, Within;
    forall x | x in q ensures x in ids {
      assert x in multiset(q);
    }
    assert multiset(ids) == multiset(q) + (multiset(ids) - multiset(q));
  }

  // Row n was in the queue once the rows before it were processed.
  predicate Serves(es: seq<Edge>, ids: seq<TaskId>, order: seq<TaskId>, n: nat)
    requires n < |order|
  {
    order[..n + 1] <= Roots(es, ids) + Released(es, Fed(es, order[..n]))
  }

  predicate Served(es: seq<Edge>, ids: seq<TaskId>, order: seq<TaskId>) {
    forall n :: 0 <= n < |order| ==> Serves(es, ids, order, n)
  }

  // The queue ran from the roots until it was empty.
  predicate QueueRun(es: seq<Edge>, ids: seq<TaskId>, order: seq<TaskId>) {
    QueueOrder(es, ids, order) && Served(es, ids, order)
  }

  lemma HeadTaken(order: seq<TaskId>, queue: seq<TaskId>)
    requires queue != []
    ensures order + [queue[0]] + queue[1..] == order + queue && order + [queue[0]] <= order + queue
    ensures (order + queue)[|order|] == queue[0] && queue[0] in order + queue
  {
  }

  lemma PrefixKept(order: seq<TaskId>, x: TaskId, n: nat)
    requires n <= |order|
    ensures (order + [x])[..n] == order[..n]
  {
  }

  lemma ServedStep(es: seq<Edge>, ids: seq<TaskId>, order: seq<TaskId>, queue: seq<TaskId>)
    requires Served(es, ids, order) && queue != []
    requires order + queue == Roots(es, ids) + Released(es, Fed(es, order))
    ensures Served(es, ids, order + [queue[0]])
  {
    hide Roots, Released, Fed;
    forall n | 0 <= n <= |order| ensures Serves(es, ids, order + [queue[0]], n) {
      ServesOn(es, ids, order, queue, n);
    }
  }

  lemma ServesOn(es: seq<Edge>, ids: seq<TaskId>, order: seq<TaskId>, queue: seq<TaskId>, n: nat)
    requires Served(es, ids, order) && queue != [] && n <= |order|
    requires order + queue == Roots(es, ids) + Released(es, Fed(es, order))
    ensures Serves(es, ids, order + [queue[0]], n)
  {
    assert n < |order| ==> Serves(es, ids, order, n);
    hide Roots, Released, Fed, Served;
    PrefixKept(order, queue[0], n);
    if n < |order| {
      PrefixKept(order, queue[0], n + 1);
    } else {
      HeadTaken(order, queue);
      Whole(order);
      Whole(order + [queue[0]]);
    }
  }

  lemma NextServed(es: seq<Edge>, ids: seq<TaskId>, order: seq<TaskId>, queue: seq<TaskId>, indegree: map<TaskId, int>,
                   depth: map<TaskId, nat>)
    requires Within(es, ids) && Queued(es, ids, Fed(es, order), order + queue, indegree, depth) && queue != []
    requires Served(es, ids, order)
    ensures queue[0] in ids && |order| < |ids| && Served(es, ids, order + [queue[0]])
    ensures Queued(es, ids, FedUpTo(es, order, queue[0], 0), Lined(order, queue[0], queue[1..]), indegree, depth)
  {
    hide Roots, Released, Fed, Counted, Successors, Served, Within, FedUpTo;
    HeadTaken(order, queue);
    FedEnds(es, order, queue[0]);
    ServedStep(es, ids, order, queue);
    QueuedFits(es, ids, Fed(es, order), order + queue);
  }

  // The next entry of id's list is consumed.
  lemma QueuedOn(es: seq<Edge>, ids: seq<TaskId>, done: seq<TaskId>, id: TaskId, j: nat, queue: seq<TaskId>,
                 indegree: map<TaskId, int>, depth: map<TaskId, nat>)
    requires Within(es, ids) && id in ids && j < |Successors(es, id)|
    requires Queued(es, ids, FedUpTo(es, done, id, j), Lined(done, id, queue), indegree, depth)
    ensures var next := Successors(es, id)[j];
            && next in depth && id in depth && next in indegree
            && Queued(es, ids, FedUpTo(es, done, id, j + 1), Lined(done, id, Joined(queue, next, indegree[next])),
                      indegree[next := indegree[next] - 1], depth[next := Later(depth[next], depth[id])])
  {
    var next, fed, q := Successors(es, id)[j], FedUpTo(es, done, id, j), Lined(done, id, queue);
    hide Queued, Successors, Fed, Within, Joined, Later, FedUpTo, Lined, Part;
    SuccessorEdge(es, ids, id, j);
    QueuedKeys(es, ids, fed, q, indegree, depth, id, next);
    QueuedStep(es, ids, fed, q, indegree, depth, next, Later(depth[next], depth[id]));
    var rest := FedOn(es, done, id, j);
    LinedOn(done, id, queue, next, indegree[next]);
  }

  // ---- what holds for a list without repeats ----

  lemma QueuedDistinct(es: seq<Edge>, ids: seq<TaskId>, fed: seq<TaskId>)
    requires Distinct(ids)
    ensures Distinct(Roots(es, ids) + Released(es, fed))
  {
    RootsMembers(es, ids);
    ReleasedMembers(es, fed);
    var a, b := Roots(es, ids), Released(es, fed);
    forall i, j | 0 <= i < |a| && 0 <= j < |b| ensures a[i] != b[j] {
      assert a[i] in a && b[j] in b;
    }
    hide Roots, Released, InDegree;
  }

  lemma LinedDistinct(done: seq<TaskId>, id: TaskId, queue: seq<TaskId>)
    requires Distinct(Lined(done, id, queue))
    ensures Distinct(done + [id])
  {
    assert forall i :: 0 <= i <= |done| ==> Lined(done, id, queue)[i] == (done + [id])[i];
  }

  lemma LinedWithout(done: seq<TaskId>, id: TaskId, queue: seq<TaskId>, x: TaskId)
    requires multiset(Lined(done, id, queue))[x] == 0
    ensures x !in done + [id]
  {
    assert x !in Lined(done, id, queue);
  }

  lemma StillOpen(es: seq<Edge>, order: seq<TaskId>, fed: seq<TaskId>, rest: seq<TaskId>, next: TaskId)
    requires Distinct(order) && Fed(es, order) == fed + [next] + rest
    ensures multiset(fed)[next] < InDegree(es, next)
  {
    FedCount(es, order, next);
    assert multiset(fed + [next] + rest)[next] == multiset(fed)[next] + 1 + multiset(rest)[next];
  }

  // The target of the next entry has not been placed.
  lemma NextUnplaced(es: seq<Edge>, ids: seq<TaskId>, done: seq<TaskId>, id: TaskId, j: nat, queue: seq<TaskId>)
    requires Distinct(ids) && j < |Successors(es, id)|
    requires Lined(done, id, queue) == Roots(es, ids) + Released(es, FedUpTo(es, done, id, j))
    ensures Successors(es, id)[j] !in done + [id]
  {
    var next, fed := Successors(es, id)[j], FedUpTo(es, done, id, j);
    hide *;
    QueuedDistinct(es, ids, fed);
    LinedDistinct(done, id, queue);
    var rest := FedOn(es, done, id, j);
    StillOpen(es, done + [id], fed, rest, next);
    QueuedTimes(es, ids, fed, next);
    LinedWithout(done, id, queue, next);
  }

  // The first j entries of id's list are consumed.
  ghost predicate Midway(es: seq<Edge>, ids: seq<TaskId>, done: seq<TaskId>, id: TaskId, j: nat, queue: seq<TaskId>,
                         depth: map<TaskId, nat>, indegree: map<TaskId, int>)
    requires Within(es, ids) && j <= |Successors(es, id)|
  {
    && Queued(es, ids, FedUpTo(es, done, id, j), Lined(done, id, queue), indegree, depth)
    && (Distinct(ids) ==> Relaxed(es, ids, done, id, Part(es, id, j), done + [id], depth))
  }

  lemma QueuedIs(es: seq<Edge>, ids: seq<TaskId>, fed: seq<TaskId>, q: seq<TaskId>, indegree: map<TaskId, int>,
                 depth: map<TaskId, nat>)
    requires Queued(es, ids, fed, q, indegree, depth)
    ensures q == Roots(es, ids) + Released(es, fed)
  {
  }

  lemma MidwayStep(es: seq<Edge>, ids: seq<TaskId>, done: seq<TaskId>, id: TaskId, j: nat, queue: seq<TaskId>,
                   depth: map<TaskId, nat>, indegree: map<TaskId, int>)
    requires Within(es, ids) && id in ids && j < |Successors(es, id)|
    requires Midway(es, ids, done, id, j, queue, depth, indegree)
    ensures var next := Successors(es, id)[j];
            && next in depth && id in depth && next in indegree
            && Midway(es, ids, done, id, j + 1, Joined(queue, next, indegree[next]),
                      depth[next := Later(depth[next], depth[id])], indegree[next := indegree[next] - 1])
  {
    hide Queued, Distinct, Fed, Successors, Within, Later, Joined, FedUpTo, Lined, Part, Relaxed, Roots, Released;
    QueuedOn(es, ids, done, id, j, queue, indegree, depth);
    if Distinct(ids) {
      QueuedIs(es, ids, FedUpTo(es, done, id, j), Lined(done, id, queue), indegree, depth);
      NextUnplaced(es, ids, done, id, j, queue);
      ConsumeStep(es, ids, done, id, j, depth);
    }
  }

  // One task has left the queue; its successor list is consumed.
  method Process(ghost es: seq<Edge>, ghost ids: seq<TaskId>, ghost done: seq<TaskId>, id: TaskId, nexts: seq<TaskId>,
                 queue0: seq<TaskId>, depth0: map<TaskId, nat>, indegree0: map<TaskId, int>)
    returns (queue: seq<TaskId>, depth: map<TaskId, nat>, indegree: map<TaskId, int>)
    requires Within(es, ids) && id in ids && nexts == Successors(es, id)
    requires Midway(es, ids, done, id, 0, queue0, depth0, indegree0)
    ensures Midway(es, ids, done, id, |nexts|, queue, depth, indegree)
  {
    queue, depth, indegree := queue0, depth0, indegree0;
    hide Midway, Successors, Within, Later;
    for j := 0 to |nexts|
      invariant Midway(es, ids, done, id, j, queue, depth, indegree)
    {
      var next := nexts[j];
      MidwayStep(es, ids, done, id, j, queue, depth, indegree);
      depth := depth[next := Later(depth[next], depth[id])];
      var left := indegree[next] - 1;
      indegree := indegree[next := left];
      if left == 0 {
        queue := queue + [next];
      }
    }
  }

  lemma SuccessorEdge(es: seq<Edge>, ids: seq<TaskId>, id: TaskId, j: nat)
    requires Within(es, ids) && j < |Successors(es, id)|
    ensures Edge(id, Successors(es, id)[j]) in es && Successors(es, id)[j] in ids
  {
    SuccessorsMembers(es, id, Successors(es, id)[j]);
    assert Edge(id, Successors(es, id)[j]).target in ids;
  }

  lemma QueuedKeys(es: seq<Edge>, ids: seq<TaskId>, fed: seq<TaskId>, q: seq<TaskId>, indegree: map<TaskId, int>,
                   depth: map<TaskId, nat>, a: TaskId, b: TaskId)
    requires Queued(es, ids, fed, q, indegree, depth) && a in ids && b in ids
    ensures a in depth && b in depth && b in indegree
  {
  }

  // ---- what holds once the queue is empty ----

  lemma RunDistinct(es: seq<Edge>, ids: seq<TaskId>, order: seq<TaskId>)
    requires Within(es, ids) && Distinct(ids) && QueueRun(es, ids, order)
    ensures Distinct(order) && forall x <- order :: x in ids
  {
    hide Roots, Released, Fed, Distinct, Served, Within;
    QueuedDistinct(es, ids, Fed(es, order));
    QueuedFits(es, ids, Fed(es, order), order);
  }

  lemma DistinctTake(s: seq<TaskId>, n: nat)
    requires Distinct(s) && n <= |s|
    ensures Distinct(s[..n])
  {
  }

  lemma InsidePrefix(s: seq<TaskId>, n: nat, whole: seq<TaskId>)
    requires n < |s| && s[..n + 1] <= whole
    ensures multiset(whole)[s[n]] >= 1
  {
    assert s[..n + 1][n] == s[n] && whole[n] == s[n];
    assert s[n] in multiset(whole);
  }

  // A row comes after all its predecessors.
  lemma RunAfter(es: seq<Edge>, ids: seq<TaskId>, order: seq<TaskId>, k: nat)
    requires Distinct(order) && k < |order| && Serves(es, ids, order, k)
    ensures After(es, order[..k], order[k])
  {
    var before, x := order[..k], order[k];
    InsidePrefix(order, k, Roots(es, ids) + Released(es, Fed(es, before)));
    DistinctTake(order, k);
    hide *;
    QueuedTimes(es, ids, Fed(es, before), x);
    FedCount(es, before, x);
    UnfedZero(es, before, x);
  }

  lemma RunTopological(es: seq<Edge>, ids: seq<TaskId>, order: seq<TaskId>)
    requires Distinct(order) && QueueRun(es, ids, order)
    ensures Topological(es, order)
  {
    hide After, Serves, Distinct, QueueOrder;
    forall k | 0 <= k < |order| ensures After(es, order[..k], order[k]) {
      RunAfter(es, ids, order, k);
    }
  }

  lemma UnplacedWaits(es: seq<Edge>, ids: seq<TaskId>, order: seq<TaskId>, waiting: set<TaskId>, x: TaskId)
    requires Within(es, ids) && Distinct(order) && order == Roots(es, ids) + Released(es, Fed(es, order))
    requires forall u :: u in waiting <==> u in ids && u !in order
    requires x in waiting
    ensures Waits(es, waiting, x)
  {
    QueuedTimes(es, ids, Fed(es, order), x);
    assert x !in multiset(order) && x in multiset(ids);
    hide Roots, Released, Fed, InDegree, Distinct;
    FedCount(es, order, x);
    UnfedZero(es, order, x);
  }

  lemma PlacedIffClear(es: seq<Edge>, ids: seq<TaskId>, order: seq<TaskId>, x: TaskId)
    requires Within(es, ids) && Distinct(ids) && QueueRun(es, ids, order) && x in ids
    ensures x in order <==> !BehindCycle(es, x)
  {
    RunDistinct(es, ids, order);
    hide Roots, Released, Fed, Served, Distinct, BehindCycle;
    if x in order {
      var k :| 0 <= k < |order| && order[k] == x;
      RunTopological(es, ids, order);
      PlacedNotBehindCycle(es, order, k);
    } else {
      var waiting := set u | u in ids && u !in order;
      forall u | u in waiting ensures Waits(es, waiting, u) {
        UnplacedWaits(es, ids, order, waiting, u);
      }
      WaitingIsBehindCycle(es, waiting, x);
    }
  }

  lemma DepthIsLongest(es: seq<Edge>, ids: seq<TaskId>, order: seq<TaskId>, id: TaskId, depth: map<TaskId, nat>,
                       x: TaskId)
    requires Within(es, ids) && Relaxed(es, ids, order, id, [], order, depth) && x in ids
    requires forall y <- ids :: y in order <==> !BehindCycle(es, y)
    requires forall y <- order :: y in ids
    ensures IsDepth(es, x, depth[x])
  {
    assert Far(es, order, x, depth[x]);
    var v :| Way(es, order, v, x) && |v| - 1 == depth[x];
    assert WalkTo(es, v, x) && Clear(es, v);
    forall w | WalkTo(es, w, x) && Clear(es, w) ensures |w| - 1 <= depth[x] {
      var placed := set y | y in order;
      forall i | 0 <= i < |w| - 1 ensures w[i] in placed {
        assert Edge(w[i], w[i + 1]) in es;
      }
      WalkWithinDepth(es, depth, placed, w, x);
    }
  }

  lemma CycleIffUnplaced(es: seq<Edge>, ids: seq<TaskId>, order: seq<TaskId>)
    requires Within(es, ids) && Distinct(ids) && Distinct(order)
    requires forall y <- ids :: y in order <==> !BehindCycle(es, y)
    requires forall y <- order :: y in ids
    ensures HasCycle(es) <==> |order| < |ids|
  {
    if HasCycle(es) {
      var x :| OnCycle(es, x);
      assert WalkTo(es, [x], x) && BehindCycle(es, x);
      var w :| WalkTo(es, w, x) && |w| > 1 && w[0] == x;
      assert Edge(w[0], w[1]) in es;
      assert x in ids && x !in order;
      DistinctFits(order + [x], set y | y in ids);
      SetOfSeq(ids);
    }
    if |order| < |ids| {
      if forall y <- ids :: y in order {
        DistinctFits(ids, set y | y in order);
        SetOfSeq(order);
      }
      var y :| y in ids && y !in order;
      var w :| WalkTo(es, w, y) && OnCycle(es, w[0]);
    }
  }

  lemma {:induction false} SetOfSeq(a: seq<TaskId>)
    ensures |set y | y in a| <= |a|
  {
    if a != [] {
      var n := |a| - 1;
      SetOfSeq(a[..n]);
      assert (set y | y in a) == (set y | y in a[..n]) + {a[n]};
    }
  }

  // Kahn-placed tasks first, then the tasks on or behind a cycle in source order.
  ghost predicate IsPlacement(es: seq<Edge>, ids: seq<TaskId>, order: seq<TaskId>, placed: seq<TaskId>) {
    && order == placed + Stuck(es, ids)
    && Topological(es, placed)
    && QueueOrder(es, ids, placed)
  }

  // The queue ran dry: exactly the tasks off every cycle are placed, in queue order, at their final depth.
  ghost predicate Drained(es: seq<Edge>, ids: seq<TaskId>, order: seq<TaskId>, depth: map<TaskId, nat>) {
    && Distinct(order)
    && (forall y <- order :: y in ids)
    && (forall y <- ids :: y in order <==> !BehindCycle(es, y))
    && Topological(es, order)
    && QueueOrder(es, ids, order)
    && (forall x <- ids :: x in depth && IsDepth(es, x, depth[x]))
  }

  lemma DrainDone(es: seq<Edge>, ids: seq<TaskId>, order: seq<TaskId>, id: TaskId,
                  depth: map<TaskId, nat>)
    requires Within(es, ids) && Distinct(ids) && QueueRun(es, ids, order)
    requires Relaxed(es, ids, order, id, [], order, depth)
    ensures Drained(es, ids, order, depth)
  {
    hide Roots, Released, Fed, Served, Distinct, BehindCycle, IsDepth, Topological, Within, QueueOrder;
    RunDistinct(es, ids, order);
    RunTopological(es, ids, order);
    forall y | y in ids ensures y in order <==> !BehindCycle(es, y) {
      PlacedIffClear(es, ids, order, y);
    }
    forall x | x in ids ensures x in depth && IsDepth(es, x, depth[x]) {
      RelaxedKey(es, ids, order, id, [], order, depth, x);
      DepthIsLongest(es, ids, order, id, depth, x);
    }
    hide Relaxed;
  }

  lemma RootsStep(es: seq<Edge>, ids: seq<TaskId>, i: nat, indegree: map<TaskId, int>)
    requires i < |ids| && Counted(es, ids, [], indegree)
    ensures ids[i] in indegree
    ensures Roots(es, ids[..i + 1]) == if indegree[ids[i]] == 0 then Roots(es, ids[..i]) + [ids[i]]
            else Roots(es, ids[..i])
  {
    TakeStep(ids, i);
    assert ids[..i + 1][..i] == ids[..i] && ids[i] in ids;
    hide InDegree;
  }

  method Seed(ghost es: seq<Edge>, ids: seq<TaskId>, indegree: map<TaskId, int>) returns (queue: seq<TaskId>)
    requires Counted(es, ids, [], indegree)
    ensures queue == Roots(es, ids)
  {
    queue := [];
    Whole(ids);
    hide InDegree, Roots, Counted;
    RootsNone(es);
    for i := 0 to |ids|
      invariant queue == Roots(es, ids[..i])
    {
      RootsStep(es, ids, i, indegree);
      if indegree[ids[i]] == 0 {
        queue := queue + [ids[i]];
      }
    }
  }

  lemma RootsNone(es: seq<Edge>)
    ensures Roots(es, []) == []
  {
  }

  lemma StartDepths(es: seq<Edge>, ids: seq<TaskId>, id: TaskId, depth: map<TaskId, nat>)
    requires Within(es, ids) && forall x <- ids :: x in depth && depth[x] == 0
    ensures Relaxed(es, ids, [], id, [], [], depth)
  {
    forall x | x in ids ensures Far(es, [], x, 0) {
      assert Way(es, [], [x], x);
    }
  }

  lemma RelaxRestart(es: seq<Edge>, ids: seq<TaskId>, order: seq<TaskId>, id0: TaskId, id: TaskId,
                     depth: map<TaskId, nat>)
    requires Within(es, ids) && Relaxed(es, ids, order, id0, [], order, depth)
    ensures Relaxed(es, ids, order, id, [], order + [id], depth)
  {
    hide IsWalk, WalkTo;
  }

  lemma Dequeue(es: seq<Edge>, ids: seq<TaskId>, order: seq<TaskId>, id0: TaskId, id: TaskId,
                depth: map<TaskId, nat>)
    requires Within(es, ids) && Relaxed(es, ids, order, id0, [], order, depth)
    ensures Relaxed(es, ids, order, id, Part(es, id, 0), order + [id], depth)
  {
    FedEnds(es, order, id);
    RelaxRestart(es, ids, order, id0, id, depth);
    hide Relaxed, Part, FedUpTo;
  }

  lemma Requeue(es: seq<Edge>, ids: seq<TaskId>, done: seq<TaskId>, id: TaskId, depth: map<TaskId, nat>)
    requires Within(es, ids)
    requires Relaxed(es, ids, done, id, Part(es, id, |Successors(es, id)|), done + [id], depth)
    ensures Relaxed(es, ids, done + [id], id, [], done + [id], depth)
  {
    FedEnds(es, done, id);
    hide Reached, Successors, Part, FedUpTo;
    forall e | e in es && e.source == id ensures e.target in Successors(es, id) {
      SuccessorsMembers(es, id, e.target);
    }
  }

  lemma QueuedStart(es: seq<Edge>, ids: seq<TaskId>, queue: seq<TaskId>, indegree: map<TaskId, int>,
                    depth: map<TaskId, nat>)
    requires Counted(es, ids, [], indegree) && queue == Roots(es, ids) && forall x <- ids :: x in depth
    ensures Queued(es, ids, Fed(es, []), [] + queue, indegree, depth)
  {
    assert [] + queue == queue + [];
    hide Roots, Counted;
  }

  lemma QueuedNext(es: seq<Edge>, ids: seq<TaskId>, done: seq<TaskId>, id: TaskId, q: seq<TaskId>,
                   indegree: map<TaskId, int>, depth: map<TaskId, nat>)
    requires Queued(es, ids, FedUpTo(es, done, id, |Successors(es, id)|), q, indegree, depth)
    ensures Queued(es, ids, Fed(es, done + [id]), q, indegree, depth)
  {
    FedEnds(es, done, id);
  }

  lemma QueueDone(es: seq<Edge>, ids: seq<TaskId>, order: seq<TaskId>, indegree: map<TaskId, int>,
                  depth: map<TaskId, nat>)
    requires Within(es, ids) && Queued(es, ids, Fed(es, order), order, indegree, depth) && Served(es, ids, order)
    ensures QueueRun(es, ids, order) && (forall x <- ids :: x in depth) && forall x <- order :: x in ids
    ensures |order| <= |ids| && (|order| == |ids| ==> multiset(order) == multiset(ids))
  {
    hide Roots, Released, Fed, Served, Counted, Within;
    QueuedFits(es, ids, Fed(es, order), order);
  }

  // Every list is drained first in, first out. Without repeated ids it is known where that ends.
  method Drain(ids: seq<TaskId>, deps: seq<Dependency>) returns (order: seq<TaskId>, depth: map<TaskId, nat>)
    ensures QueueRun(KnownEdges(ids, deps), ids, order)
    ensures (forall x <- order :: x in ids) && (forall x <- ids :: x in depth)
    ensures |order| <= |ids| && (|order| == |ids| ==> multiset(order) == multiset(ids))
    ensures Distinct(ids) ==> Drained(KnownEdges(ids, deps), ids, order, depth)
  {
    ghost var es := KnownEdges(ids, deps);
    var indegree, successors := ReadLines(ids, deps);
    depth := map x | x in ids :: 0;
    var queue := Seed(es, ids, indegree);
    order := [];
    ghost var id0 := TaskId("");
    StartDepths(es, ids, id0, depth);
    QueuedStart(es, ids, queue, indegree, depth);
    while |queue| > 0
      invariant Queued(es, ids, Fed(es, order), order + queue, indegree, depth) && Served(es, ids, order)
      invariant Distinct(ids) ==> Relaxed(es, ids, order, id0, [], order, depth)
      decreases |ids| - |order|
    {
      hide Relaxed, Drained, Queued, Distinct, KnownEdges, Fed, Served, QueueRun, FedUpTo, Part;
      var id := queue[0];
      NextServed(es, ids, order, queue, indegree, depth);
      if Distinct(ids) {
        Dequeue(es, ids, order, id0, id, depth);
      }
      queue, depth, indegree := Process(es, ids, order, id, successors[id], queue[1..], depth, indegree);
      QueuedNext(es, ids, order, id, order + [id] + queue, indegree, depth);
      if Distinct(ids) {
        Requeue(es, ids, order, id, depth);
      }
      order := order + [id];
      id0 := id;
    }
    assert order + queue == order;
    QueueDone(es, ids, order, indegree, depth);
    if Distinct(ids) {
      DrainDone(es, ids, order, id0, depth);
    }
    hide Relaxed, Drained, Distinct, Queued, KnownEdges, Fed, Served, QueueRun;
  }

  lemma NoneStuck(es: seq<Edge>, ids: seq<TaskId>, order: seq<TaskId>)
    requires Distinct(ids) && Distinct(order) && |order| >= |ids|
    requires (forall y <- ids :: y in order <==> !BehindCycle(es, y)) && forall y <- order :: y in ids
    ensures order + Stuck(es, ids) == order
  {
    StuckFacts(es, ids);
    if Stuck(es, ids) != [] {
      var x := Stuck(es, ids)[0];
      assert x in Stuck(es, ids);
      DistinctFits(order + [x], set y | y in ids);
      SetOfSeq(ids);
    }
  }

  lemma PlacementPermutes(es: seq<Edge>, ids: seq<TaskId>, placed: seq<TaskId>)
    requires Distinct(ids) && Distinct(placed)
    requires (forall y <- ids :: y in placed <==> !BehindCycle(es, y)) && forall y <- placed :: y in ids
    ensures multiset(placed + Stuck(es, ids)) == multiset(ids)
  {
    StuckFacts(es, ids);
    var rest := Stuck(es, ids);
    forall i, j | 0 <= i < |placed| && 0 <= j < |rest| ensures placed[i] != rest[j] {
      assert placed[i] in placed && rest[j] in rest;
    }
    hide Stuck;
    DistinctPermutation(placed + Stuck(es, ids), ids);
  }

  function Missing(ids: seq<TaskId>, placed: seq<TaskId>): seq<TaskId> {
    if ids == [] then []
    else Missing(ids[..|ids| - 1], placed) + if ids[|ids| - 1] !in placed then [ids[|ids| - 1]] else []
  }

  lemma {:induction false} MissingMembers(ids: seq<TaskId>, placed: seq<TaskId>)
    ensures forall x :: x in Missing(ids, placed) <==> x in ids && x !in placed
  {
    if ids != [] {
      MissingMembers(ids[..|ids| - 1], placed);
      assert ids == ids[..|ids| - 1] + [ids[|ids| - 1]];
    }
  }

  lemma MissingStep(ids: seq<TaskId>, placed: seq<TaskId>)
    requires ids != []
    ensures Missing(ids, placed) == if ids[|ids| - 1] in placed then Missing(ids[..|ids| - 1], placed)
            else Missing(ids[..|ids| - 1], placed) + [ids[|ids| - 1]]
  {
  }

  lemma MissingNone(placed: seq<TaskId>)
    ensures Missing([], placed) == []
  {
  }

  // When exactly the tasks off every cycle are placed, the missing ones are the stuck ones.
  lemma {:induction false} MissingIsStuck(es: seq<Edge>, ids: seq<TaskId>, placed: seq<TaskId>)
    requires forall y <- ids :: y in placed <==> !BehindCycle(es, y)
    ensures Missing(ids, placed) == Stuck(es, ids)
  {
    hide BehindCycle, Stuck, Missing;
    if ids == [] {
      StuckNone(es);
      MissingNone(placed);
    } else {
      var n := |ids| - 1;
      assert ids[n] in ids && forall y <- ids[..n] :: y in ids;
      MissingIsStuck(es, ids[..n], placed);
      MissingStep(ids, placed);
      StuckStep(es, ids, n);
      Whole(ids);
    }
  }

  lemma StuckNone(es: seq<Edge>)
    ensures Stuck(es, []) == []
  {
  }

  // The tasks Kahn could not place follow in source order.
  method AppendRest(ids: seq<TaskId>, placed: seq<TaskId>) returns (order: seq<TaskId>)
    ensures order == placed + Missing(ids, placed)
    ensures forall x :: x in order <==> x in placed || x in ids
  {
    order := placed;
    for i := 0 to |ids|
      invariant order == placed + Missing(ids[..i], placed)
    {
      assert ids[..i + 1][..i] == ids[..i];
      Assoc(placed, Missing(ids[..i], placed), ids[i]);
      if ids[i] !in placed {
        order := order + [ids[i]];
      }
    }
    assert ids[..|ids|] == ids;
    MissingMembers(ids, placed);
  }

  // What the rows promise when no id is repeated.
  ghost predicate IsOrderOf(es: seq<Edge>, ids: seq<TaskId>, r: DependencyOrder) {
    && multiset(r.order) == multiset(ids)
    && (exists placed :: IsPlacement(es, ids, r.order, placed))
    && (r.hasCycle <==> HasCycle(es))
    && (forall x <- ids :: x in r.depth && IsDepth(es, x, r.depth[x]))
  }

  lemma DrainedIsOrder(es: seq<Edge>, ids: seq<TaskId>, placed: seq<TaskId>, depth: map<TaskId, nat>)
    requires Within(es, ids) && Distinct(ids) && Drained(es, ids, placed, depth)
    ensures |placed| < |ids| ==> IsOrderOf(es, ids, DependencyOrder(placed + Missing(ids, placed), depth, true))
    ensures |placed| >= |ids| ==> IsOrderOf(es, ids, DependencyOrder(placed, depth, false))
  {
    hide Distinct, Topological, QueueOrder, BehindCycle, HasCycle, IsDepth, Stuck, Within, Missing;
    CycleIffUnplaced(es, ids, placed);
    PlacementPermutes(es, ids, placed);
    MissingIsStuck(es, ids, placed);
    assert IsPlacement(es, ids, placed + Missing(ids, placed), placed);
    if |placed| >= |ids| {
      NoneStuck(es, ids, placed);
    }
  }

  // What the rows promise for any list.
  ghost predicate IsRun(es: seq<Edge>, ids: seq<TaskId>, r: DependencyOrder) {
    && (exists placed :: QueueRun(es, ids, placed) && Shown(ids, placed, r))
    && (forall x <- ids :: x in r.depth)
  }

  predicate Shown(ids: seq<TaskId>, placed: seq<TaskId>, r: DependencyOrder) {
    r.order == placed + Missing(ids, placed) && (r.hasCycle <==> |placed| < |ids|)
  }

  ghost predicate IsResult(tasks: seq<CalcTask>, deps: seq<Dependency>, r: DependencyOrder) {
    var ids, es := Ids(tasks), KnownEdges(Ids(tasks), deps);
    IsRun(es, ids, r) && (Distinct(ids) ==> IsOrderOf(es, ids, r))
  }

  lemma SomeMember(s: seq<TaskId>)
    ensures s == [] || exists x :: x in s
  {
    if s != [] {
      assert s[0] in s;
    }
  }

  lemma NoneMissing(ids: seq<TaskId>, placed: seq<TaskId>)
    requires multiset(placed) == multiset(ids)
    ensures placed + Missing(ids, placed) == placed
    ensures forall x :: x in placed <==> x in ids
  {
    MissingMembers(ids, placed);
    hide Missing;
    forall x ensures x in placed <==> x in ids {
      assert (x in placed <==> x in multiset(placed)) && (x in ids <==> x in multiset(ids));
    }
    SomeMember(Missing(ids, placed));
  }

  lemma ShownIsRun(es: seq<Edge>, ids: seq<TaskId>, placed: seq<TaskId>, r: DependencyOrder)
    requires QueueRun(es, ids, placed) && forall x <- ids :: x in r.depth
    requires r.order == placed + Missing(ids, placed) && (r.hasCycle <==> |placed| < |ids|)
    ensures IsRun(es, ids, r)
  {
    hide QueueRun, Missing;
    assert Shown(ids, placed, r);
  }

  // Stable topological order, depth and cycle flag of the gantt rows. For any list the rows are
  // the tasks, each as often as it is listed unless the flag is up.
  method DependencyOrderOf(tasks: seq<CalcTask>, deps: seq<Dependency>) returns (r: DependencyOrder)
    ensures IsResult(tasks, deps, r)
    ensures forall x :: x in r.order <==> x in Ids(tasks)
    ensures !r.hasCycle ==> multiset(r.order) == multiset(Ids(tasks))
  {
    var ids := Ids(tasks);
    ghost var es := KnownEdges(ids, deps);
    var placed, depth := Drain(ids, deps);
    if Distinct(ids) {
      DrainedIsOrder(es, ids, placed, depth);
    }
    hide Distinct, Drained, IsOrderOf, KnownEdges, QueueRun, Missing, IsRun;
    if |placed| < |ids| {
      var order := AppendRest(ids, placed);
      r := DependencyOrder(order, depth, true);
    } else {
      NoneMissing(ids, placed);
      r := DependencyOrder(placed, depth, false);
    }
    ShownIsRun(es, ids, placed, r);
  }

  lemma StuckStep(es: seq<Edge>, ids: seq<TaskId>, i: nat)
    requires i < |ids|
    ensures Stuck(es, ids[..i + 1]) == if BehindCycle(es, ids[i]) then Stuck(es, ids[..i]) + [ids[i]]
            else Stuck(es, ids[..i])
  {
    assert ids[..i + 1][..i] == ids[..i];
  }
}
