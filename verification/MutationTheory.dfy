// What replay promises across requests: when splitting a batch is unobservable, and that a
// key whose outcome was stored is never dispatched again.
module MutationTheory {

  import opened Options
  import opened Mutations

  lemma {:induction false} ReplayConcat(cfg: Config, s: State, a: seq<Mutation>, b: seq<Mutation>)
    ensures var (t, ra) := Replay(cfg, s, a);
            var (u, rb) := Replay(cfg, t, b);
            Replay(cfg, s, a + b) == (u, ra + rb)
  {
    var (t, ra) := Replay(cfg, s, a);
    if b == [] {
      assert a + b == a && ra + [] == ra;
    } else {
      var n := |b| - 1;
      ReplayConcat(cfg, s, a, b[..n]);
      assert (a + b)[..|a| + n] == a + b[..n];
      var (u, rb) := Replay(cfg, t, b[..n]);
      var r := Step(cfg, u, b[n]).1;
      assert ra + rb + [r] == ra + (rb + [r]);
    }
  }

  // ---- routing ----

  lemma AfterPrefix(prefix: string, a: string, b: string, suffix: string)
    requires prefix + a + suffix == prefix + b + suffix
    ensures a == b
  {
    assert |a| == |b|;
    forall i | 0 <= i < |a| ensures a[i] == b[i] {
      assert (prefix + a + suffix)[|prefix| + i] == a[i] && (prefix + b + suffix)[|prefix| + i] == b[i];
    }
  }

  lemma PathOf(m: Mutation) returns (prefix: string, suffix: string)
    requires WellFormed(m) && Route(m).Forward? && m.op != "inbox.readAll"
    ensures Route(m).call.path == prefix + m.id + suffix
    ensures m.op == "task.update" <==> Route(m).call.service == TaskService
    ensures m.op == "action.update" <==> Route(m).call.service == EventService
    ensures prefix == if m.op == "task.update" then "PATCH /tasks/"
            else if m.op == "action.update" then "PATCH /actions/" else "PATCH /inbox/"
    ensures suffix == if m.op == "inbox.read" then "/read" else ""
  {
    suffix := if m.op == "inbox.read" then "/read" else "";
    prefix := if m.op == "task.update" then "PATCH /tasks/" else if m.op == "action.update" then "PATCH /actions/"
        else "PATCH /inbox/";
    assert prefix + m.id + "" == prefix + m.id;
  }

  lemma NotReadAll(m: Mutation)
    requires WellFormed(m) && Route(m).Forward? && m.op != "inbox.readAll"
    ensures Route(m).call.path != "POST /inbox/read-all"
  {
    var p, x := PathOf(m);
    assert Route(m).call.path[1] == 'A' && "POST /inbox/read-all"[1] == 'O';
  }

  // The service and path a mutation reaches say which operation it was, and on which row.
  lemma RoutesApart(a: Mutation, b: Mutation)
    requires WellFormed(a) && WellFormed(b) && Route(a).Forward? && Route(b).Forward?
    requires Route(a).call.service == Route(b).call.service && Route(a).call.path == Route(b).call.path
    ensures a.op == b.op && (a.op != "inbox.readAll" ==> a.id == b.id && a.id != "")
  {
    if a.op != "inbox.readAll" {
      NotReadAll(a);
    }
    if b.op != "inbox.readAll" {
      NotReadAll(b);
    }
    if a.op != "inbox.readAll" && b.op != "inbox.readAll" {
      var p, x := PathOf(a);
      var q, y := PathOf(b);
      AfterPrefix(p, a.id, b.id, x);
    }
  }

  // ---- results line up with their mutations ----

  ghost predicate KeysMatch(cfg: Config, s: State) {
    && (forall k <- s.seen :: s.seen[k].key == k)
    && (forall k :: Stored(s.table, k).Some? ==> Stored(s.table, k).value.key == k)
  }

  function KeyOf(m: Mutation): Key {
    if m.Mutation? then m.key else Key("")
  }

  lemma StepAligns(cfg: Config, s: State, m: Mutation)
    requires KeysMatch(cfg, s)
    ensures KeysMatch(cfg, Step(cfg, s, m).0) && Step(cfg, s, m).1.key == KeyOf(m)
  {
    var t := Step(cfg, s, m).0;
    forall k | Stored(t.table, k).Some? ensures Stored(t.table, k).value.key == k {
      assert Stored(s.table, k).Some? ==> Stored(s.table, k).value.key == k;
    }
    if WellFormed(m) && Remembered(cfg, s, m.key).Some? {
      assert Stored(s.table, m.key).value.key == m.key;
    }
  }

  lemma {:induction false} ResultsAlign(cfg: Config, s: State, batch: seq<Mutation>)
    requires KeysMatch(cfg, s)
    ensures var (t, rs) := Replay(cfg, s, batch);
            && KeysMatch(cfg, t)
            && |rs| == |batch|
            && forall i :: 0 <= i < |batch| ==> rs[i].key == KeyOf(batch[i])
  {
    if batch != [] {
      var n := |batch| - 1;
      ResultsAlign(cfg, s, batch[..n]);
      StepAligns(cfg, Replay(cfg, s, batch[..n]).0, batch[n]);
      hide KeysMatch, Step;
    }
  }

  // ---- splitting a batch into two requests ----

  // A remembered outcome is the one stored, when one is stored.
  ghost predicate Coherent(cfg: Config, s: State) {
    forall k <- s.seen :: Remembered(cfg, s, k).None? || Remembered(cfg, s, k) == Some(s.seen[k])
  }

  lemma StepCoherent(cfg: Config, s: State, m: Mutation)
    requires Coherent(cfg, s)
    ensures Coherent(cfg, Step(cfg, s, m).0)
  {
  }

  lemma {:induction false} ReplayCoherent(cfg: Config, s: State, batch: seq<Mutation>)
    requires Coherent(cfg, s)
    ensures Coherent(cfg, Replay(cfg, s, batch).0)
  {
    if batch != [] {
      ReplayCoherent(cfg, s, batch[..|batch| - 1]);
      StepCoherent(cfg, Replay(cfg, s, batch[..|batch| - 1]).0, batch[|batch| - 1]);
    }
  }

  // Keys one request remembers that the next one cannot look up.
  function Forgotten(cfg: Config, s: State): set<Key> {
    set k | k in s.seen && Remembered(cfg, s, k).None?
  }

  ghost predicate Repeats(batch: seq<Mutation>, keys: set<Key>) {
    exists m <- batch :: WellFormed(m) && m.key in keys
  }

  // x has gone on with its memory, y started over; `lost` are the forgotten keys.
  ghost predicate Matched(cfg: Config, x: State, y: State, lost: set<Key>) {
    && x.table == y.table && x.calls == y.calls
    && (forall k <- y.seen :: k in x.seen && y.seen[k] == x.seen[k] && k !in lost)
    && (forall k <- x.seen :: k in lost || k in y.seen || Remembered(cfg, x, k) == Some(x.seen[k]))
    && (forall k <- lost :: k in x.seen && Remembered(cfg, x, k).None?)
  }

  lemma MatchedStep(cfg: Config, x: State, y: State, lost: set<Key>, m: Mutation)
    requires Matched(cfg, x, y, lost) && (WellFormed(m) ==> m.key !in lost)
    ensures Matched(cfg, Step(cfg, x, m).0, Step(cfg, y, m).0, lost)
    ensures Step(cfg, x, m).1 == Step(cfg, y, m).1
  {
    hide Dispatched;
  }

  lemma {:induction false} MatchedReplay(cfg: Config, x: State, y: State, lost: set<Key>, batch: seq<Mutation>)
    requires Matched(cfg, x, y, lost) && !Repeats(batch, lost)
    ensures Matched(cfg, Replay(cfg, x, batch).0, Replay(cfg, y, batch).0, lost)
    ensures Replay(cfg, x, batch).1 == Replay(cfg, y, batch).1
  {
    if batch != [] {
      var n := |batch| - 1;
      assert batch[n] in batch;
      assert forall m <- batch[..n] :: m in batch;
      MatchedReplay(cfg, x, y, lost, batch[..n]);
      MatchedStep(cfg, Replay(cfg, x, batch[..n]).0, Replay(cfg, y, batch[..n]).0, lost, batch[n]);
    }
  }

  lemma LostKeyShows(cfg: Config, x: State, y: State, lost: set<Key>, m: Mutation)
    requires Matched(cfg, x, y, lost) && WellFormed(m) && m.key in lost
    ensures Step(cfg, x, m).1 != Step(cfg, y, m).1
  {
    assert Step(cfg, x, m).1.status == Duplicate;
  }

  lemma {:induction false} ReplayLength(cfg: Config, s: State, batch: seq<Mutation>)
    ensures |Replay(cfg, s, batch).1| == |batch|
  {
    if batch != [] {
      ReplayLength(cfg, s, batch[..|batch| - 1]);
    }
  }

  lemma RepeatsStep(batch: seq<Mutation>, keys: set<Key>)
    requires Repeats(batch, keys)
    ensures |batch| > 0
    ensures Repeats(batch[..|batch| - 1], keys) || (WellFormed(batch[|batch| - 1]) && batch[|batch| - 1].key in keys)
  {
    var m :| m in batch && WellFormed(m) && m.key in keys;
    var i :| 0 <= i < |batch| && batch[i] == m;
    assert i < |batch| - 1 ==> m in batch[..|batch| - 1];
  }

  lemma {:induction false} LostBatchShows(cfg: Config, x: State, y: State, lost: set<Key>, batch: seq<Mutation>)
    requires Matched(cfg, x, y, lost) && Repeats(batch, lost)
    ensures Replay(cfg, x, batch).1 != Replay(cfg, y, batch).1
  {
    RepeatsStep(batch, lost);
    var n := |batch| - 1;
    var (x1, rx) := Replay(cfg, x, batch[..n]);
    var (y1, ry) := Replay(cfg, y, batch[..n]);
    ReplayLength(cfg, x, batch[..n]);
    ReplayLength(cfg, y, batch[..n]);
    if Repeats(batch[..n], lost) {
      LostBatchShows(cfg, x, y, lost, batch[..n]);
      assert Replay(cfg, x, batch).1[..n] == rx && Replay(cfg, y, batch).1[..n] == ry;
    } else {
      MatchedReplay(cfg, x, y, lost, batch[..n]);
      LostKeyShows(cfg, x1, y1, lost, batch[n]);
      assert Replay(cfg, x, batch).1[n] == Step(cfg, x1, batch[n]).1
          && Replay(cfg, y, batch).1[n] == Step(cfg, y1, batch[n]).1;
    }
  }

  // Sending b1 then b2 gives the client the same results as b1 + b2 exactly when b2 repeats
  // no key the first request settled without storing it: one that ended in an error, or any
  // key at all when nothing is stored. Then the services also see the same calls.
  lemma SplitUnobservableIff(cfg: Config, table: Table, calls: seq<Call>, b1: seq<Mutation>, b2: seq<Mutation>)
    ensures var (s1, r1) := Request(cfg, table, calls, b1);
            var (s2, r2) := Request(cfg, s1.table, s1.calls, b2);
            var (joint, r) := Request(cfg, table, calls, b1 + b2);
            && (r == r1 + r2 <==> !Repeats(b2, Forgotten(cfg, s1)))
            && (!Repeats(b2, Forgotten(cfg, s1)) ==> joint.calls == s2.calls && joint.table == s2.table)
  {
    var start := State(map[], table, calls);
    var (s1, r1) := Replay(cfg, start, b1);
    var fresh_ := State(map[], s1.table, s1.calls);
    ReplayConcat(cfg, start, b1, b2);
    ReplayCoherent(cfg, start, b1);
    var lost := Forgotten(cfg, s1);
    assert Matched(cfg, s1, fresh_, lost);
    var rj, r2 := Replay(cfg, s1, b2).1, Replay(cfg, fresh_, b2).1;
    if Repeats(b2, lost) {
      LostBatchShows(cfg, s1, fresh_, lost, b2);
      assert (r1 + rj)[|r1|..] == rj && (r1 + r2)[|r1|..] == r2;
    } else {
      MatchedReplay(cfg, s1, fresh_, lost, b2);
    }
  }

  lemma RefusedStep(cfg: Config, s: State, m: Mutation)
    requires WellFormed(m) && m.op == "task.update" && m.id == "" && m.key !in s.seen && Remembered(cfg, s, m.key).None?
    ensures Step(cfg, s, m) == (s.(seen := s.seen[m.key := Outcome(m.key, Error, ID_REQUIRED)]),
            Outcome(m.key, Error, ID_REQUIRED))
  {
  }

  lemma ReadAllRoute(m: Mutation)
    requires m.Mutation? && m.key.text != "" && m.op == "inbox.readAll"
    ensures WellFormed(m) && Route(m) == Forward(Call(NotificationService, "POST /inbox/read-all", EMPTY_BODY, m.key))
  {
    assert m.op[0] == 'i' && |m.op| == 13 && |"inbox.read"| == 10;
  }

  lemma ReplayOne(cfg: Config, s: State, m: Mutation)
    ensures Replay(cfg, s, [m]) == (Step(cfg, s, m).0, [Step(cfg, s, m).1])
  {
    assert [m][..0] == [] && Replay(cfg, s, [m][..0]) == (s, []);
    assert [] + [Step(cfg, s, m).1] == [Step(cfg, s, m).1];
  }

  lemma RefusedForgotten(cfg: Config, table: Table, calls: seq<Call>, m: Mutation)
    requires WellFormed(m) && m.op == "task.update" && m.id == "" && m.key !in table
    ensures Repeats([m], Forgotten(cfg, Request(cfg, table, calls, [m]).0))
  {
    RefusedStep(cfg, State(map[], table, calls), m);
    ReplayOne(cfg, State(map[], table, calls), m);
    var s1 := Request(cfg, table, calls, [m]).0;
    assert s1.seen == map[m.key := Outcome(m.key, Error, ID_REQUIRED)] && s1.table == table;
    assert m.key in Forgotten(cfg, s1) && m in [m];
  }

  // It happens: an update without an id is refused; sent again in the same batch it reads
  // "duplicate", sent again in the next request it is refused again.
  lemma SplitShows(cfg: Config, table: Table, calls: seq<Call>, key: Key)
    requires key.text != "" && key !in table
    ensures var b := [Mutation(key, "task.update", "", EMPTY_BODY)];
            var (s1, r1) := Request(cfg, table, calls, b);
            Request(cfg, table, calls, b + b).1 != r1 + Request(cfg, s1.table, s1.calls, b).1
  {
    hide Request, Repeats, Forgotten;
    var m := Mutation(key, "task.update", "", EMPTY_BODY);
    assert |m.op| == 11;
    RefusedForgotten(cfg, table, calls, m);
    SplitUnobservableIff(cfg, table, calls, [m], [m]);
  }

  ghost predicate ErrorsOnlyForgotten(cfg: Config, s: State) {
    && (forall k <- s.table :: s.table[k].Some? && s.table[k].value.status != Error)
    && (forall k <- s.seen :: Remembered(cfg, s, k) == if s.seen[k].status == Error then None else Some(s.seen[k]))
  }

  lemma StepForgets(cfg: Config, s: State, m: Mutation)
    requires cfg.hasStore && cfg.hasUser && ErrorsOnlyForgotten(cfg, s)
    ensures ErrorsOnlyForgotten(cfg, Step(cfg, s, m).0)
  {
  }

  // With a store, a user and a table holding settled outcomes, the forgotten keys are those
  // that ended in an error.
  lemma {:induction false} ForgottenAreErrors(cfg: Config, table: Table, calls: seq<Call>, batch: seq<Mutation>)
    requires cfg.hasStore && cfg.hasUser && forall k <- table :: table[k].Some? && table[k].value.status != Error
    ensures var t := Request(cfg, table, calls, batch).0;
            && ErrorsOnlyForgotten(cfg, t)
            && forall k :: k in Forgotten(cfg, t) <==> k in t.seen && t.seen[k].status == Error
  {
    if batch != [] {
      var n := |batch| - 1;
      ForgottenAreErrors(cfg, table, calls, batch[..n]);
      StepForgets(cfg, Request(cfg, table, calls, batch[..n]).0, batch[n]);
    }
  }

  // ---- no key is dispatched again once its outcome is stored ----

  predicate Landed(oracle: Oracle, calls: seq<Call>, i: nat)
    requires i < |calls|
  {
    !oracle(calls[..i], calls[i]).Failure?
  }

  // Of the calls from `base` on with key k, only the last can have landed, and then k is stored.
  ghost predicate OnceFor(cfg: Config, base: nat, calls: seq<Call>, table: Table, k: Key) {
    && (k in table ==> table[k].Some?)
    && (forall i :: base <= i < |calls| && calls[i].key == k && Landed(cfg.oracle, calls, i) ==> k in table)
    && (forall i, j :: base <= i < j < |calls| && calls[i].key == k && calls[j].key == k ==>
          !Landed(cfg.oracle, calls, i))
  }

  lemma StepOnce(cfg: Config, base: nat, s: State, m: Mutation, k: Key)
    requires cfg.hasStore && cfg.hasUser && base <= |s.calls| && OnceFor(cfg, base, s.calls, s.table, k)
    ensures var t := Step(cfg, s, m).0;
            base <= |t.calls| && OnceFor(cfg, base, t.calls, t.table, k)
  {
    var t := Step(cfg, s, m).0;
    var n := |s.calls|;
    if t.calls != s.calls {
      assert t.calls[..n] == s.calls;
      forall i | 0 <= i < n ensures Landed(cfg.oracle, t.calls, i) == Landed(cfg.oracle, s.calls, i) {
        assert t.calls[i] == s.calls[i] && t.calls[..i] == s.calls[..i];
      }
    }
  }

  lemma {:induction false} ReplayOnce(cfg: Config, base: nat, s: State, batch: seq<Mutation>, k: Key)
    requires cfg.hasStore && cfg.hasUser && base <= |s.calls| && OnceFor(cfg, base, s.calls, s.table, k)
    ensures var t := Replay(cfg, s, batch).0;
            base <= |t.calls| && OnceFor(cfg, base, t.calls, t.table, k)
  {
    if batch != [] {
      ReplayOnce(cfg, base, s, batch[..|batch| - 1], k);
      StepOnce(cfg, base, Replay(cfg, s, batch[..|batch| - 1]).0, batch[|batch| - 1], k);
    }
  }

  function Session(cfg: Config, table: Table, calls: seq<Call>, requests: seq<seq<Mutation>>): (Table, seq<Call>) {
    if requests == [] then (table, calls)
    else
      var (t, c) := Session(cfg, table, calls, requests[..|requests| - 1]);
      var s := Request(cfg, t, c, requests[|requests| - 1]).0;
      (s.table, s.calls)
  }

  // Over any sequence of requests a key is applied, or rejected as a conflict, at most once:
  // every dispatch of it but the last ended in an error.
  lemma {:induction false} AppliedAtMostOnce(cfg: Config, table: Table, calls: seq<Call>,
                                             requests: seq<seq<Mutation>>, k: Key)
    requires cfg.hasStore && cfg.hasUser && (k in table ==> table[k].Some?)
    ensures var (t, c) := Session(cfg, table, calls, requests);
            && |calls| <= |c| && OnceFor(cfg, |calls|, c, t, k)
  {
    if requests != [] {
      var n := |requests| - 1;
      AppliedAtMostOnce(cfg, table, calls, requests[..n], k);
      var (t, c) := Session(cfg, table, calls, requests[..n]);
      ReplayOnce(cfg, |calls|, State(map[], t, c), requests[n], k);
    }
  }

  // A stored key is answered from the store: no request dispatches it.
  lemma {:induction false} StoredNeverDispatched(cfg: Config, table: Table, calls: seq<Call>,
      requests: seq<seq<Mutation>>, k: Key)
    requires cfg.hasStore && Stored(table, k).Some?
    ensures var (t, c) := Session(cfg, table, calls, requests);
            && Stored(t, k) == Stored(table, k) && |calls| <= |c| && c[..|calls|] == calls
            && forall i :: |calls| <= i < |c| ==> c[i].key != k
  {
    if requests != [] {
      var n := |requests| - 1;
      StoredNeverDispatched(cfg, table, calls, requests[..n], k);
      var (t, c) := Session(cfg, table, calls, requests[..n]);
      StoredInRequest(cfg, |calls|, State(map[], t, c), requests[n], k);
    }
  }

  lemma {:induction false} StoredInRequest(cfg: Config, base: nat, s: State, batch: seq<Mutation>, k: Key)
    requires cfg.hasStore && Stored(s.table, k).Some? && base <= |s.calls|
    requires forall i :: base <= i < |s.calls| ==> s.calls[i].key != k
    ensures var t := Replay(cfg, s, batch).0;
            && Stored(t.table, k) == Stored(s.table, k)
            && base <= |t.calls| && t.calls[..base] == s.calls[..base]
            && forall i :: base <= i < |t.calls| ==> t.calls[i].key != k
  {
    if batch != [] {
      StoredInRequest(cfg, base, s, batch[..|batch| - 1], k);
    }
  }

  // Inside one request each key is dispatched at most once, store or not.
  lemma {:induction false} OneDispatchPerBatch(cfg: Config, table: Table, calls: seq<Call>, batch: seq<Mutation>)
    ensures var s := Request(cfg, table, calls, batch).0;
            && calls <= s.calls
            && (forall i :: |calls| <= i < |s.calls| ==> s.calls[i].key in s.seen)
            && (forall i, j :: |calls| <= i < j < |s.calls| ==> s.calls[i].key != s.calls[j].key)
  {
    if batch != [] {
      OneDispatchPerBatch(cfg, table, calls, batch[..|batch| - 1]);
    }
  }

  // ---- a store that can fail ----

  // A request that is answered at all is answered as if the store had worked.
  lemma {:induction false} AnsweredIsReplay(cfg: Config, s: State, batch: seq<Mutation>, faults: nat -> Fault)
    ensures var l := ReplayUnder(cfg, s, batch, faults);
            l.results.Some? ==> l.lost == [] && Replay(cfg, s, batch) == (l.state, l.results.value)
  {
    if batch != [] {
      AnsweredIsReplay(cfg, s, batch[..|batch| - 1], faults);
    }
  }

  // Calls with key k from `base` on that took effect.
  function Landings(oracle: Oracle, calls: seq<Call>, base: nat, k: Key): nat {
    if |calls| <= base then 0
    else
      var n := |calls| - 1;
      Landings(oracle, calls[..n], base, k) + if calls[n].key == k && Landed(oracle, calls, n) then 1 else 0
  }

  function Count(keys: seq<Key>, k: Key): nat {
    if keys == [] then 0 else Count(keys[..|keys| - 1], k) + if keys[|keys| - 1] == k then 1 else 0
  }

  lemma {:induction false} CountConcat(a: seq<Key>, b: seq<Key>, k: Key)
    ensures Count(a + b, k) == Count(a, k) + Count(b, k)
  {
    if b == [] {
      assert a + b == a;
    } else {
      assert (a + b)[..|a + b| - 1] == a + b[..|b| - 1];
      CountConcat(a, b[..|b| - 1], k);
    }
  }

  lemma LandingsSnoc(oracle: Oracle, calls: seq<Call>, c: Call, base: nat, k: Key)
    requires base <= |calls|
    ensures Landings(oracle, calls + [c], base, k) ==
            Landings(oracle, calls, base, k) + if c.key == k && !oracle(calls, c).Failure? then 1 else 0
  {
    assert (calls + [c])[..|calls|] == calls;
  }

  // Every effect of k is accounted for: by a lost outcome, or by the one stored outcome.
  ghost predicate Balanced(oracle: Oracle, table0: Table, base: nat, table: Table, calls: seq<Call>, lost: nat,
                           k: Key) {
    && base <= |calls|
    && (k in table0 ==> k in table) && (k in table ==> table[k].Some?)
    && Landings(oracle, calls, base, k) == lost + if k in table && k !in table0 then 1 else 0
  }

  lemma DispatchBalance(cfg: Config, table0: Table, base: nat, s: State, m: Mutation, lost: nat, k: Key)
    requires cfg.hasStore && cfg.hasUser && Balanced(cfg.oracle, table0, base, s.table, s.calls, lost, k)
    requires WellFormed(m) && Remembered(cfg, s, m.key).None?
    ensures var (result, calls) := Dispatched(cfg, s.calls, m);
            && Balanced(cfg.oracle, table0, base, if Saves(cfg, s, m) then Saved(s.table, m.key, result)
                else s.table, calls, lost, k)
            && Balanced(cfg.oracle, table0, base, s.table, calls, lost + if Saves(cfg, s, m) && m.key == k then 1
                else 0, k)
  {
    if Route(m).Forward? {
      LandingsSnoc(cfg.oracle, s.calls, Route(m).call, base, k);
    }
  }

  // A mutation leaves table and calls alone, or dispatches: its outcome is then stored when it
  // took effect, or lost.
  lemma ProceedEffect(cfg: Config, l: Left, m: Mutation, fault: Fault)
    requires cfg.hasStore
    ensures var n := Proceed(cfg, l, m, fault);
            || (n.state.table == l.state.table && n.state.calls == l.state.calls && n.lost == l.lost)
            || (&& WellFormed(m) && Remembered(cfg, l.state, m.key).None?
                && n.state.calls == Dispatched(cfg, l.state.calls, m).1
                && (|| (n.lost == l.lost && n.state.table == if Saves(cfg, l.state, m)
                                                             then Saved(l.state.table, m.key,
                                                                 Dispatched(cfg, l.state.calls, m).0)
                                                             else l.state.table)
                    || (n.lost == l.lost + [m.key] && Saves(cfg, l.state, m) && n.state.table == l.state.table)))
  {
    assert l.lost + [] == l.lost;
    hide Dispatched, Saved;
  }

  lemma CountOne(keys: seq<Key>, x: Key, k: Key)
    ensures Count(keys + [x], k) == Count(keys, k) + if x == k then 1 else 0
  {
    assert (keys + [x])[..|keys|] == keys;
  }

  lemma ProceedBalance(cfg: Config, table0: Table, base: nat, l: Left, m: Mutation, fault: Fault, lost: nat, k: Key)
    requires cfg.hasStore && cfg.hasUser
    requires Balanced(cfg.oracle, table0, base, l.state.table, l.state.calls, lost + Count(l.lost, k), k)
    ensures var n := Proceed(cfg, l, m, fault);
            Balanced(cfg.oracle, table0, base, n.state.table, n.state.calls, lost + Count(n.lost, k), k)
  {
    hide Balanced, Dispatched, Saved, Count, Proceed, Remembered;
    ProceedEffect(cfg, l, m, fault);
    if WellFormed(m) {
      CountOne(l.lost, m.key, k);
      if Remembered(cfg, l.state, m.key).None? {
        DispatchBalance(cfg, table0, base, l.state, m, lost + Count(l.lost, k), k);
      }
    }
  }

  lemma {:induction false} ReplayBalance(cfg: Config, table0: Table, base: nat, s: State, batch: seq<Mutation>,
                                         faults: nat -> Fault, lost: nat, k: Key)
    requires cfg.hasStore && cfg.hasUser && Balanced(cfg.oracle, table0, base, s.table, s.calls, lost, k)
    ensures var l := ReplayUnder(cfg, s, batch, faults);
            Balanced(cfg.oracle, table0, base, l.state.table, l.state.calls, lost + Count(l.lost, k), k)
  {
    hide Balanced, Proceed;
    if batch != [] {
      var n := |batch| - 1;
      ReplayBalance(cfg, table0, base, s, batch[..n], faults, lost, k);
      ProceedBalance(cfg, table0, base, ReplayUnder(cfg, s, batch[..n], faults), batch[n], faults(n), lost, k);
    }
  }

  // The requests of one client, each with what the store did to it.
  function SessionUnder(cfg: Config, table: Table, calls: seq<Call>,
                        requests: seq<(seq<Mutation>, nat -> Fault)>): Left {
    if requests == [] then Left(State(map[], table, calls), Some([]), [])
    else
      var before := SessionUnder(cfg, table, calls, requests[..|requests| - 1]);
      var (batch, faults) := requests[|requests| - 1];
      var l := ReplayUnder(cfg, State(map[], before.state.table, before.state.calls), batch, faults);
      Left(l.state, l.results, before.lost + l.lost)
  }

  // Over any sequence of requests, with gets and saves failing anywhere: a key takes effect once
  // for its stored outcome, plus once for every outcome whose save was lost.
  lemma {:induction false} LandingsBalance(cfg: Config, table: Table, calls: seq<Call>,
                                           requests: seq<(seq<Mutation>, nat -> Fault)>, k: Key)
    requires cfg.hasStore && cfg.hasUser && (k in table ==> table[k].Some?)
    ensures var l := SessionUnder(cfg, table, calls, requests);
            Balanced(cfg.oracle, table, |calls|, l.state.table, l.state.calls, Count(l.lost, k), k)
  {
    if requests != [] {
      var before := SessionUnder(cfg, table, calls, requests[..|requests| - 1]);
      LandingsBalance(cfg, table, calls, requests[..|requests| - 1], k);
      var (batch, faults) := requests[|requests| - 1];
      var start := State(map[], before.state.table, before.state.calls);
      ReplayBalance(cfg, table, |calls|, start, batch, faults, Count(before.lost, k), k);
      CountConcat(before.lost, ReplayUnder(cfg, start, batch, faults).lost, k);
    }
  }

  lemma LostStep(cfg: Config, s: State, m: Mutation, call: Call)
    requires cfg.hasStore && cfg.hasUser && WellFormed(m) && Route(m) == Forward(call) && cfg.oracle(s.calls, call).Ok?
    requires m.key !in s.seen && m.key !in s.table
    ensures Proceed(cfg, Left(s, Some([]), []), m, SaveRejects(false)) == Left(s.(calls := s.calls + [call]), None,
            [m.key])
    ensures var n := Proceed(cfg, Left(s, Some([]), []), m, Works);
            n.lost == [] && m.key in n.state.table && n.state.calls == s.calls + [call]
  {
    assert [] + [m.key] == [m.key];
    hide Route;
  }

  lemma ReplayUnderOne(cfg: Config, s: State, m: Mutation, faults: nat -> Fault)
    ensures ReplayUnder(cfg, s, [m], faults) == Proceed(cfg, Left(s, Some([]), []), m, faults(0))
  {
    assert [m][..0] == [];
  }

  lemma SessionTwo(cfg: Config, table: Table, calls: seq<Call>, x: (seq<Mutation>, nat -> Fault),
                   y: (seq<Mutation>, nat -> Fault))
    ensures var l := ReplayUnder(cfg, State(map[], table, calls), x.0, x.1);
            var k := ReplayUnder(cfg, State(map[], l.state.table, l.state.calls), y.0, y.1);
            SessionUnder(cfg, table, calls, [x] + [y]) == Left(k.state, k.results, l.lost + k.lost)
  {
    assert [x][..0] == [] && ([x] + [y])[..1] == [x];
    var l := ReplayUnder(cfg, State(map[], table, calls), x.0, x.1);
    assert [] + l.lost == l.lost;
    assert SessionUnder(cfg, table, calls, [x]) == l;
    hide ReplayUnder;
  }

  // It happens: the save of an applied mutation is lost, the client sends the batch again, and
  // the mutation takes effect a second time.
  lemma LostSaveRepeats(cfg: Config, key: Key)
    requires cfg.hasStore && cfg.hasUser && key.text != "" && forall calls, c :: cfg.oracle(calls, c).Ok?
    ensures var batch := [Mutation(key, "inbox.readAll", "", EMPTY_BODY)];
            var l := SessionUnder(cfg, map[], [], [(batch, (n: nat) => SaveRejects(false))]
                + [(batch, (n: nat) => Works)]);
            Landings(cfg.oracle, l.state.calls, 0, key) == 2
  {
    hide SessionUnder, ReplayUnder, Proceed, Landings, Route;
    var m := Mutation(key, "inbox.readAll", "", EMPTY_BODY);
    ReadAllRoute(m);
    var call := Route(m).call;
    var lose, keep := (n: nat) => SaveRejects(false), (n: nat) => Works;
    LostStep(cfg, State(map[], map[], []), m, call);
    LostStep(cfg, State(map[], map[], [] + [call]), m, call);
    ReplayUnderOne(cfg, State(map[], map[], []), m, lose);
    ReplayUnderOne(cfg, State(map[], map[], [] + [call]), m, keep);
    SessionTwo(cfg, map[], [], ([m], lose), ([m], keep));
    LandingsBalance(cfg, map[], [], [([m], lose)] + [([m], keep)], key);
    CountOne([], key, key);
    assert [] + [key] == [key] && [key] + [] == [key];
  }

  // ---- what the store answers ----

  function SaveAll(table: Table, saves: seq<Outcome>): Table {
    if saves == [] then table
        else Saved(SaveAll(table, saves[..|saves| - 1]), saves[|saves| - 1].key, saves[|saves| - 1])
  }

  function FirstFor(saves: seq<Outcome>, k: Key): Option<Outcome> {
    if saves == [] then None else if saves[0].key == k then Some(saves[0]) else FirstFor(saves[1..], k)
  }

  lemma {:induction false} FirstForSnoc(saves: seq<Outcome>, x: Outcome, k: Key)
    ensures FirstFor(saves + [x], k) == if FirstFor(saves, k).Some? then FirstFor(saves, k)
            else if x.key == k then Some(x) else None
  {
    if saves == [] {
      assert [x][1..] == [];
    } else {
      FirstForSnoc(saves[1..], x, k);
      assert (saves + [x])[1..] == saves[1..] + [x];
    }
  }

  // After any saves a lookup returns the row that was there before, else the first outcome
  // saved under the key.
  lemma {:induction false} FirstSaveWins(table: Table, saves: seq<Outcome>, k: Key)
    ensures Stored(SaveAll(table, saves), k) == if k in table then table[k] else FirstFor(saves, k)
    ensures k in SaveAll(table, saves) <==> k in table || FirstFor(saves, k).Some?
  {
    if saves != [] {
      var n := |saves| - 1;
      FirstSaveWins(table, saves[..n], k);
      FirstForSnoc(saves[..n], saves[n], k);
      assert saves[..n] + [saves[n]] == saves;
    }
  }
}
