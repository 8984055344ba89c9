// What each mutation of a request is answered, read off the request, the stored table and the
// replies of the services, and what is stored for the next request.
module MutationResults {

  import opened Options
  import opened Mutations
  import opened MutationTheory

  // ---- the request a mutation is forwarded as ----

  predicate ForwardsTo(m: Mutation, c: Call)
    requires m.Mutation?
  {
    && c.key == m.key
    && (|| (m.op == "task.update" && m.id != "" && c.service == TaskService
            && c.path == "PATCH /tasks/" + m.id && c.body == m.patch)
        || (m.op == "action.update" && m.id != "" && c.service == EventService
            && c.path == "PATCH /actions/" + m.id && c.body == m.patch)
        || (m.op == "inbox.read" && m.id != "" && c.service == NotificationService
            && c.path == "PATCH /inbox/" + m.id + "/read" && c.body == EMPTY_BODY)
        || (m.op == "inbox.readAll" && c.service == NotificationService
            && c.path == "POST /inbox/read-all" && c.body == EMPTY_BODY))
  }

  // Four operations are forwarded, three of them only with an id; an update carries its patch,
  // and every request carries the mutation's key.
  lemma RouteIff(m: Mutation, c: Call)
    requires WellFormed(m)
    ensures Route(m) == Forward(c) <==> ForwardsTo(m, c)
    ensures Route(m).Refuse? ==>
              Route(m).error == if m.op in {"task.update", "action.update", "inbox.read"} then ID_REQUIRED
                                else UNSUPPORTED
  {
  }

  // ---- one result ----

  // The first mutation of its key.
  predicate FirstOf(batch: seq<Mutation>, i: nat)
    requires i < |batch|
  {
    WellFormed(batch[i]) && forall j :: 0 <= j < i && WellFormed(batch[j]) ==> batch[j].key != batch[i].key
  }

  // What the services and the store are left with by the mutations before i.
  function Before(cfg: Config, table: Table, calls: seq<Call>, batch: seq<Mutation>, i: nat): State
    requires i <= |batch|
  {
    Request(cfg, table, calls, batch[..i]).0
  }

  function Results(cfg: Config, table: Table, calls: seq<Call>, batch: seq<Mutation>): (rs: seq<Outcome>)
    ensures |rs| == |batch|
  {
    RequestRemembers(cfg, table, calls, batch);
    Request(cfg, table, calls, batch).1
  }

  function Again(r: Outcome): Outcome {
    Outcome(r.key, Duplicate, r.detail)
  }

  // The memory of the request: the first results of its keys, and nothing else. Rows of other
  // keys are as they were.
  ghost predicate Remembers(cfg: Config, table: Table, batch: seq<Mutation>, s: State, rs: seq<Outcome>) {
    && |rs| == |batch|
    && (forall j :: 0 <= j < |batch| && FirstOf(batch, j) ==>
          batch[j].key in s.seen && Again(s.seen[batch[j].key]) == Again(rs[j]))
    && (forall k <- s.seen :: exists j :: 0 <= j < |batch| && WellFormed(batch[j]) && batch[j].key == k)
    && (forall k :: k !in s.seen ==> Stored(s.table, k) == Stored(table, k) && (k in s.table <==> k in table))
  }

  lemma FirstStays(batch: seq<Mutation>, m: Mutation, j: nat)
    requires j < |batch|
    ensures FirstOf(batch + [m], j) <==> FirstOf(batch, j)
  {
    assert forall i :: 0 <= i <= j ==> (batch + [m])[i] == batch[i];
  }

  lemma {:induction false} FirstExists(batch: seq<Mutation>, i: nat) returns (j: nat)
    requires i < |batch| && WellFormed(batch[i])
    ensures j <= i && FirstOf(batch, j) && batch[j].key == batch[i].key
  {
    j := i;
    if !FirstOf(batch, i) {
      var k :| 0 <= k < i && WellFormed(batch[k]) && batch[k].key == batch[i].key;
      j := FirstExists(batch, k);
    }
  }

  lemma NewKey(cfg: Config, table: Table, batch: seq<Mutation>, s: State, rs: seq<Outcome>, m: Mutation)
    requires Remembers(cfg, table, batch, s, rs) && FirstOf(batch + [m], |batch|)
    ensures m.key !in s.seen
  {
    assert forall j :: 0 <= j < |batch| ==> (batch + [m])[j] == batch[j];
  }

  lemma FirstsKept(cfg: Config, table: Table, batch: seq<Mutation>, s: State, rs: seq<Outcome>, m: Mutation, j: nat)
    requires Remembers(cfg, table, batch, s, rs) && j <= |batch| && FirstOf(batch + [m], j)
    ensures var (t, r) := Step(cfg, s, m);
            var k := (batch + [m])[j].key;
            k in t.seen && Again(t.seen[k]) == Again((rs + [r])[j])
  {
    if j < |batch| {
      FirstStays(batch, m, j);
      assert (batch + [m])[j] == batch[j];
    } else {
      NewKey(cfg, table, batch, s, rs, m);
    }
  }

  lemma SeenKept(cfg: Config, table: Table, batch: seq<Mutation>, s: State, rs: seq<Outcome>, m: Mutation, k: Key)
    requires Remembers(cfg, table, batch, s, rs) && k in Step(cfg, s, m).0.seen
    ensures exists j :: 0 <= j <= |batch| && WellFormed((batch + [m])[j]) && (batch + [m])[j].key == k
  {
    var longer := batch + [m];
    if k in s.seen {
      var j :| 0 <= j < |batch| && WellFormed(batch[j]) && batch[j].key == k;
      assert longer[j] == batch[j];
    } else {
      assert longer[|batch|] == m;
    }
  }

  lemma RowsKept(cfg: Config, table: Table, batch: seq<Mutation>, s: State, rs: seq<Outcome>, m: Mutation)
    requires Remembers(cfg, table, batch, s, rs)
    ensures var t := Step(cfg, s, m).0;
            forall k :: k !in t.seen ==> Stored(t.table, k) == Stored(table, k) && (k in t.table <==> k in table)
  {
    hide FirstOf;
  }

  lemma RemembersStep(cfg: Config, table: Table, batch: seq<Mutation>, s: State, rs: seq<Outcome>, m: Mutation)
    requires Remembers(cfg, table, batch, s, rs)
    ensures Remembers(cfg, table, batch + [m], Step(cfg, s, m).0, rs + [Step(cfg, s, m).1])
  {
    var t := Step(cfg, s, m).0;
    RowsKept(cfg, table, batch, s, rs, m);
    hide Step, Stored, FirstOf, WellFormed;
    forall j | 0 <= j <= |batch| && FirstOf(batch + [m], j)
      ensures (batch + [m])[j].key in t.seen
      ensures Again(t.seen[(batch + [m])[j].key]) == Again((rs + [Step(cfg, s, m).1])[j])
    {
      FirstsKept(cfg, table, batch, s, rs, m, j);
    }
    forall k | k in t.seen
      ensures exists j :: 0 <= j <= |batch| && WellFormed((batch + [m])[j]) && (batch + [m])[j].key == k
    {
      SeenKept(cfg, table, batch, s, rs, m, k);
    }
  }

  lemma {:induction false} RequestRemembers(cfg: Config, table: Table, calls: seq<Call>, batch: seq<Mutation>)
    ensures var (s, rs) := Request(cfg, table, calls, batch);
            Remembers(cfg, table, batch, s, rs)
  {
    if batch != [] {
      var n := |batch| - 1;
      RequestRemembers(cfg, table, calls, batch[..n]);
      var (s, rs) := Request(cfg, table, calls, batch[..n]);
      RemembersStep(cfg, table, batch[..n], s, rs, batch[n]);
      assert batch[..n] + [batch[n]] == batch;
      hide Remembers, Step;
    }
  }

  lemma ResultsPush(cfg: Config, table: Table, calls: seq<Call>, batch: seq<Mutation>)
    requires batch != []
    ensures var n := |batch| - 1;
            var s := Before(cfg, table, calls, batch, n);
            && Results(cfg, table, calls, batch) == Results(cfg, table, calls, batch[..n]) + [Step(cfg, s, batch[n]).1]
            && Request(cfg, table, calls, batch).0 == Step(cfg, s, batch[n]).0
            && |Results(cfg, table, calls, batch[..n])| == n
  {
    RequestRemembers(cfg, table, calls, batch[..|batch| - 1]);
    hide Step;
  }

  lemma PrefixOf(batch: seq<Mutation>, n: nat, i: nat)
    requires i <= n <= |batch|
    ensures batch[..n][..i] == batch[..i] && (i < n ==> batch[..n][i] == batch[i]) && batch[..|batch|] == batch
  {
  }

  lemma {:induction false} ResultAt(cfg: Config, table: Table, calls: seq<Call>, batch: seq<Mutation>, i: nat)
    requires i < |batch|
    ensures var s := Before(cfg, table, calls, batch, i);
            && |Results(cfg, table, calls, batch)| == |batch|
            && Results(cfg, table, calls, batch)[i] == Step(cfg, s, batch[i]).1
            && Before(cfg, table, calls, batch, i + 1) == Step(cfg, s, batch[i]).0
    decreases |batch|
  {
    var n := |batch| - 1;
    ResultsPush(cfg, table, calls, batch);
    PrefixOf(batch, n, i);
    if i < n {
      PrefixOf(batch, n, i + 1);
      ResultAt(cfg, table, calls, batch[..n], i);
    } else {
      PrefixOf(batch, |batch|, i);
    }
    hide Step, Request, Results;
  }

  // Fresh: the key comes up for the first time and nothing is stored for it.
  predicate Fresh(cfg: Config, table: Table, batch: seq<Mutation>, i: nat)
    requires i < |batch|
  {
    FirstOf(batch, i) && !(cfg.hasStore && Stored(table, batch[i].key).Some?)
  }

  lemma StepFresh(cfg: Config, s: State, m: Mutation)
    requires WellFormed(m) && m.key !in s.seen && !(cfg.hasStore && Stored(s.table, m.key).Some?)
    ensures var (t, r) := Step(cfg, s, m);
            && t.calls == Dispatched(cfg, s.calls, m).1 && r == Dispatched(cfg, s.calls, m).0
  {
  }

  lemma PrefixRemembers(cfg: Config, table: Table, calls: seq<Call>, batch: seq<Mutation>, i: nat)
    requires i < |batch| && FirstOf(batch, i)
    ensures var s := Before(cfg, table, calls, batch, i);
            && batch[i].key !in s.seen && Stored(s.table, batch[i].key) == Stored(table, batch[i].key)
            && (batch[i].key in s.table <==> batch[i].key in table)
  {
    RequestRemembers(cfg, table, calls, batch[..i]);
    PrefixOf(batch, i + 1, i);
    assert batch[..i] + [batch[i]] == batch[..i + 1];
    assert FirstOf(batch[..i + 1], i);
    var (s, rs) := Request(cfg, table, calls, batch[..i]);
    NewKey(cfg, table, batch[..i], s, rs, batch[i]);
  }

  // A fresh mutation is forwarded after everything sent so far, and the service's answer is what
  // the client reads: applied with the resource, conflict for a 409, error otherwise. One that
  // is not forwarded is an error, and no service hears of it.
  lemma FreshResult(cfg: Config, table: Table, calls: seq<Call>, batch: seq<Mutation>, i: nat, c: Call)
    requires i < |batch| && Fresh(cfg, table, batch, i)
    ensures var m, sent := batch[i], Before(cfg, table, calls, batch, i).calls;
            var r := Results(cfg, table, calls, batch)[i];
            && r.key == m.key
            && (ForwardsTo(m, c) ==>
                  && Before(cfg, table, calls, batch, i + 1).calls == sent + [c]
                  && (cfg.oracle(sent, c) == Ok(r.detail) <==> r.status == Applied)
                  && (cfg.oracle(sent, c) == Status409(r.detail) <==> r.status == Conflict)
                  && (cfg.oracle(sent, c) == Failure(r.detail) <==> r.status == Error))
            && ((forall d :: !ForwardsTo(m, d)) ==>
                  r.status == Error && Before(cfg, table, calls, batch, i + 1).calls == sent)
  {
    var s := Before(cfg, table, calls, batch, i);
    ResultAt(cfg, table, calls, batch, i);
    PrefixRemembers(cfg, table, calls, batch, i);
    StepFresh(cfg, s, batch[i]);
    RouteIff(batch[i], c);
    if Route(batch[i]).Forward? {
      RouteIff(batch[i], Route(batch[i]).call);
    }
    hide Step, Route, ForwardsTo, Request, Results;
  }

  lemma ResultsPrefix(cfg: Config, table: Table, calls: seq<Call>, batch: seq<Mutation>, i: nat, j: nat)
    requires j < i <= |batch|
    ensures Results(cfg, table, calls, batch[..i])[j] == Results(cfg, table, calls, batch)[j]
  {
    ResultAt(cfg, table, calls, batch, j);
    ResultAt(cfg, table, calls, batch[..i], j);
    PrefixOf(batch, i, j);
    hide Step, Request, Results;
  }

  // An entry that is no object, or lacks its key or its operation, is an error of its own: it
  // shows the key, if it has one, and the rest of the batch goes on.
  lemma MalformedResult(cfg: Config, table: Table, calls: seq<Call>, batch: seq<Mutation>, i: nat)
    requires i < |batch|
    ensures WellFormed(batch[i]) <==> batch[i] != NotAnObject && batch[i].key != Key("") && batch[i].op != ""
    ensures !WellFormed(batch[i]) ==>
              && Before(cfg, table, calls, batch, i + 1) == Before(cfg, table, calls, batch, i)
              && Results(cfg, table, calls, batch)[i] ==
                 Outcome(if batch[i] == NotAnObject then Key("") else batch[i].key, Error, VALIDATION_FAILED)
  {
    ResultAt(cfg, table, calls, batch, i);
    hide Request, Results;
  }

  // A key that came up before is a duplicate with the detail of its first result, and a stored one
  // a duplicate with the stored detail; neither is sent on.
  lemma OtherResult(cfg: Config, table: Table, calls: seq<Call>, batch: seq<Mutation>, i: nat)
    requires i < |batch| && !Fresh(cfg, table, batch, i)
    ensures var m, r := batch[i], Results(cfg, table, calls, batch)[i];
            && Before(cfg, table, calls, batch, i + 1).calls == Before(cfg, table, calls, batch, i).calls
            && (forall j :: 0 <= j < i && FirstOf(batch, j) && WellFormed(m) && batch[j].key == m.key ==>
                  r == Again(Results(cfg, table, calls, batch)[j]))
            && (FirstOf(batch, i) ==> r == Again(Stored(table, m.key).value))
  {
    var m, s := batch[i], Before(cfg, table, calls, batch, i);
    ResultAt(cfg, table, calls, batch, i);
    forall j | 0 <= j < i && FirstOf(batch, j) && WellFormed(m) && batch[j].key == m.key
      ensures m.key in s.seen && Again(s.seen[m.key]) == Again(Results(cfg, table, calls, batch)[j])
    {
      SeenFirst(cfg, table, calls, batch, i, j);
    }
    if FirstOf(batch, i) {
      PrefixRemembers(cfg, table, calls, batch, i);
    } else if WellFormed(m) {
      var k :| 0 <= k < i && WellFormed(batch[k]) && batch[k].key == m.key;
      var j := FirstExists(batch, k);
      assert m.key in s.seen;
    }
    hide Request, Results;
  }

  lemma SeenFirst(cfg: Config, table: Table, calls: seq<Call>, batch: seq<Mutation>, i: nat, j: nat)
    requires j < i < |batch| && FirstOf(batch, j)
    ensures var s := Before(cfg, table, calls, batch, i);
            && batch[j].key in s.seen
            && Again(s.seen[batch[j].key]) == Again(Results(cfg, table, calls, batch)[j])
  {
    RequestRemembers(cfg, table, calls, batch[..i]);
    ResultsPrefix(cfg, table, calls, batch, i, j);
    PrefixOf(batch, i, j);
    assert FirstOf(batch[..i], j);
    hide Request;
  }

  // The store gains a row exactly for a fresh mutation that was applied or refused as a conflict,
  // when there is a user and the key has no row; the row is the result the client reads.
  lemma RowsAfter(cfg: Config, table: Table, calls: seq<Call>, batch: seq<Mutation>, i: nat)
    requires i < |batch|
    ensures var before := Before(cfg, table, calls, batch, i).table;
            var after := Before(cfg, table, calls, batch, i + 1).table;
            var r := Results(cfg, table, calls, batch)[i];
            after == if Fresh(cfg, table, batch, i) && cfg.hasStore && cfg.hasUser && r.status in {Applied, Conflict}
                        && batch[i].key !in table
                     then before[batch[i].key := Some(r)] else before
  {
    var m, s := batch[i], Before(cfg, table, calls, batch, i);
    ResultAt(cfg, table, calls, batch, i);
    if FirstOf(batch, i) {
      PrefixRemembers(cfg, table, calls, batch, i);
    } else if WellFormed(m) {
      var k :| 0 <= k < i && WellFormed(batch[k]) && batch[k].key == m.key;
      var j := FirstExists(batch, k);
      SeenFirst(cfg, table, calls, batch, i, j);
    }
    hide Request, Results, Dispatched;
  }

  // ---- a store that can fail ----

  // The store is asked about mutation i, and fails: to look its key up, or to store its outcome.
  predicate FailsAt(cfg: Config, table: Table, calls: seq<Call>, batch: seq<Mutation>, faults: nat -> Fault, i: nat)
    requires i < |batch|
  {
    && cfg.hasStore && FirstOf(batch, i)
    && (|| faults(i).GetRejects?
        || (faults(i).SaveRejects? && Fresh(cfg, table, batch, i) && cfg.hasUser
            && Results(cfg, table, calls, batch)[i].status in {Applied, Conflict}))
  }

  lemma SeenIff(cfg: Config, table: Table, calls: seq<Call>, batch: seq<Mutation>, i: nat)
    requires i < |batch| && WellFormed(batch[i])
    ensures batch[i].key !in Before(cfg, table, calls, batch, i).seen <==> FirstOf(batch, i)
  {
    if FirstOf(batch, i) {
      PrefixRemembers(cfg, table, calls, batch, i);
    } else {
      var k :| 0 <= k < i && WellFormed(batch[k]) && batch[k].key == batch[i].key;
      var j := FirstExists(batch, k);
      SeenFirst(cfg, table, calls, batch, i, j);
    }
    hide Request, Results;
  }

  lemma StopsIff(cfg: Config, table: Table, calls: seq<Call>, batch: seq<Mutation>, faults: nat -> Fault, i: nat)
    requires i < |batch|
    ensures Stops(cfg, Before(cfg, table, calls, batch, i), batch[i], faults(i)) <==>
            FailsAt(cfg, table, calls, batch, faults, i)
  {
    var s := Before(cfg, table, calls, batch, i);
    if WellFormed(batch[i]) {
      SeenIff(cfg, table, calls, batch, i);
    }
    if FirstOf(batch, i) {
      PrefixRemembers(cfg, table, calls, batch, i);
      ResultAt(cfg, table, calls, batch, i);
      if Fresh(cfg, table, batch, i) {
        StepFresh(cfg, s, batch[i]);
      }
    }
    hide Request, Results, Dispatched, Step;
  }

  lemma FailsInPrefix(cfg: Config, table: Table, calls: seq<Call>, batch: seq<Mutation>, faults: nat -> Fault, n: nat,
                      i: nat)
    requires i < n <= |batch|
    ensures FailsAt(cfg, table, calls, batch[..n], faults, i) <==> FailsAt(cfg, table, calls, batch, faults, i)
  {
    ResultsPrefix(cfg, table, calls, batch, n, i);
    hide Results;
  }

  // A request is rejected exactly when the store fails at a mutation it is asked about: the first
  // of its key for a lookup, and one that was applied or refused as a conflict for a save. Repeated
  // keys, malformed entries and errors cannot make it fail.
  lemma {:induction false} RejectedIff(cfg: Config, table: Table, calls: seq<Call>, batch: seq<Mutation>,
                                       faults: nat -> Fault)
    ensures ReplayUnder(cfg, State(map[], table, calls), batch, faults).results.None? <==>
            exists i :: 0 <= i < |batch| && FailsAt(cfg, table, calls, batch, faults, i)
  {
    if batch != [] {
      var n := |batch| - 1;
      var start := State(map[], table, calls);
      RejectedIff(cfg, table, calls, batch[..n], faults);
      AnsweredIsReplay(cfg, start, batch[..n], faults);
      StopsIff(cfg, table, calls, batch, faults, n);
      forall i | 0 <= i < n
        ensures FailsAt(cfg, table, calls, batch[..n], faults, i) <==> FailsAt(cfg, table, calls, batch, faults, i)
      {
        FailsInPrefix(cfg, table, calls, batch, faults, n, i);
      }
      hide FailsAt, Stops, Step, Halted;
    }
  }
}
