// Offline mutation replay: one batch per request, deduplicated inside the batch and,
// through the stored outcomes, across requests.
module Mutations {

  import opened Options

  datatype Key = Key(text: string)

  // Empty text stands for a field that is absent or not a string.
  datatype Mutation = NotAnObject | Mutation(key: Key, op: string, id: string, patch: int)

  datatype Status = Applied | Conflict | Duplicate | Error
  datatype Outcome = Outcome(key: Key, status: Status, detail: int)

  // A downstream request as the owning service sees it.
  datatype Call = Call(service: Service, path: string, body: int, key: Key)
  datatype Service = TaskService | EventService | NotificationService

  // How the owning service answers: it may depend on everything it was sent before.
  datatype Reply = Ok(resource: int) | Status409(error: int) | Failure(error: int)
  type Oracle = (seq<Call>, Call) -> Reply

  const VALIDATION_FAILED: int := -1
  const UNSUPPORTED: int := -2
  const ID_REQUIRED: int := -3
  const EMPTY_BODY: int := 0

  predicate WellFormed(m: Mutation) {
    m.Mutation? && m.key.text != "" && m.op != ""
  }

  // The request a mutation turns into, or the error it is refused with before any request.
  datatype Routed = Forward(call: Call) | Refuse(error: int)

  function Route(m: Mutation): Routed
    requires WellFormed(m)
  {
    if m.op == "task.update" then
      if m.id == "" then Refuse(ID_REQUIRED) else Forward(Call(TaskService, "PATCH /tasks/" + m.id, m.patch, m.key))
    else if m.op == "action.update" then
      if m.id == "" then Refuse(ID_REQUIRED) else Forward(Call(EventService, "PATCH /actions/" + m.id, m.patch, m.key))
    else if m.op == "inbox.read" then
      if m.id == "" then Refuse(ID_REQUIRED)
      else Forward(Call(NotificationService, "PATCH /inbox/" + m.id + "/read", EMPTY_BODY, m.key))
    else if m.op == "inbox.readAll" then Forward(Call(NotificationService, "POST /inbox/read-all", EMPTY_BODY, m.key))
    else Refuse(UNSUPPORTED)
  }

  function OutcomeOf(key: Key, r: Reply): Outcome {
    match r
    case Ok(resource) => Outcome(key, Applied, resource)
    case Status409(error) => Outcome(key, Conflict, error)
    case Failure(error) => Outcome(key, Error, error)
  }

  // ---- the stored outcomes ----

  // None under a key is a row whose result cannot be read back.
  type Table = map<Key, Option<Outcome>>

  function Stored(table: Table, key: Key): Option<Outcome> {
    if key in table then table[key] else None
  }

  // First writer wins.
  function Saved(table: Table, key: Key, result: Outcome): Table {
    if key in table then table else table[key := Some(result)]
  }

  class D1MutationStore {
    var table: Table

    constructor ()
      ensures table == map[]
    {
      table := map[];
    }

    method Get(key: Key) returns (r: Option<Outcome>)
      ensures r == Stored(table, key)
    {
      if key !in table {
        return None;
      }
      return table[key];
    }

    method Save(key: Key, result: Outcome)
      modifies this
      ensures table == Saved(old(table), key, result)
      ensures Stored(old(table), key).Some? ==> table == old(table)
    {
      if key !in table {
        table := table[key := Some(result)];
      }
    }
  }

  class Downstream {
    var calls: seq<Call>
    const oracle: Oracle

    constructor (oracle: Oracle)
      ensures calls == [] && this.oracle == oracle
    {
      this.oracle := oracle;
      calls := [];
    }

    method Send(c: Call) returns (r: Reply)
      modifies this
      ensures calls == old(calls) + [c] && r == oracle(old(calls), c)
    {
      r := oracle(calls, c);
      calls := calls + [c];
    }
  }

  // ---- one mutation ----

  datatype Config = Config(oracle: Oracle, hasStore: bool, hasUser: bool)

  // `seen` is the request's own memory; table and calls outlive the request.
  datatype State = State(seen: map<Key, Outcome>, table: Table, calls: seq<Call>)

  function Remembered(cfg: Config, s: State, key: Key): Option<Outcome> {
    if cfg.hasStore then Stored(s.table, key) else None
  }

  function Dispatched(cfg: Config, calls: seq<Call>, m: Mutation): (r: (Outcome, seq<Call>))
    requires WellFormed(m)
  {
    match Route(m)
    case Forward(c) => (OutcomeOf(m.key, cfg.oracle(calls, c)), calls + [c])
    case Refuse(error) => (Outcome(m.key, Error, error), calls)
  }

  function Step(cfg: Config, s: State, m: Mutation): (State, Outcome) {
    if !WellFormed(m) then
      (s, Outcome(if m.Mutation? then m.key else Key(""), Error, VALIDATION_FAILED))
    else if m.key in s.seen then
      (s, s.seen[m.key].(status := Duplicate))
    else if Remembered(cfg, s, m.key).Some? then
      var r := Remembered(cfg, s, m.key).value;
      (s.(seen := s.seen[m.key := r]), r.(status := Duplicate))
    else
      var (result, calls) := Dispatched(cfg, s.calls, m);
      var table := if cfg.hasStore && cfg.hasUser && (result.status == Applied || result.status == Conflict)
                   then Saved(s.table, m.key, result) else s.table;
      (State(s.seen[m.key := result], table, calls), result)
  }

  function Replay(cfg: Config, s: State, batch: seq<Mutation>): (State, seq<Outcome>) {
    if batch == [] then (s, [])
    else
      var n := |batch| - 1;
      var (t, rs) := Replay(cfg, s, batch[..n]);
      var (u, r) := Step(cfg, t, batch[n]);
      (u, rs + [r])
  }

  // One request: a fresh memory over the shared table and services.
  function Request(cfg: Config, table: Table, calls: seq<Call>, batch: seq<Mutation>): (State, seq<Outcome>) {
    Replay(cfg, State(map[], table, calls), batch)
  }

  // ---- a store that can fail ----

  // What the store does to one mutation, should it be asked. A rejected save may still have
  // reached the table.
  datatype Fault = Works | GetRejects | SaveRejects(stored: bool)

  predicate Saves(cfg: Config, s: State, m: Mutation)
    requires WellFormed(m)
  {
    cfg.hasUser && Dispatched(cfg, s.calls, m).0.status in {Applied, Conflict}
  }

  // The rejection leaves the loop: nothing catches it.
  predicate Stops(cfg: Config, s: State, m: Mutation, fault: Fault) {
    && cfg.hasStore && WellFormed(m) && m.key !in s.seen
    && (fault.GetRejects? || (fault.SaveRejects? && Remembered(cfg, s, m.key).None? && Saves(cfg, s, m)))
  }

  // The dispatched call stays dispatched.
  function Halted(cfg: Config, s: State, m: Mutation, fault: Fault): State
    requires Stops(cfg, s, m, fault)
  {
    if fault.GetRejects? then s
    else
      var (result, calls) := Dispatched(cfg, s.calls, m);
      State(s.seen, if fault.stored then Saved(s.table, m.key, result) else s.table, calls)
  }

  // `results` is None once the request has been rejected; `lost` names the keys that took
  // effect but whose outcome was not stored.
  datatype Left = Left(state: State, results: Option<seq<Outcome>>, lost: seq<Key>)

  function Proceed(cfg: Config, l: Left, m: Mutation, fault: Fault): Left {
    if l.results.None? then l
    else if Stops(cfg, l.state, m, fault) then
      Left(Halted(cfg, l.state, m, fault), None, l.lost + if fault == SaveRejects(false) then [m.key] else [])
    else
      var (t, r) := Step(cfg, l.state, m);
      Left(t, Some(l.results.value + [r]), l.lost)
  }

  function ReplayUnder(cfg: Config, s: State, batch: seq<Mutation>, faults: nat -> Fault): Left {
    if batch == [] then Left(s, Some([]), [])
    else Proceed(cfg, ReplayUnder(cfg, s, batch[..|batch| - 1], faults), batch[|batch| - 1], faults(|batch| - 1))
  }

  function TableOf(store: D1MutationStore?): Table
    reads store
  {
    if store != null then store.table else map[]
  }

  // `body` is None when the request carries no array.
  method ApplyMutations(downstream: Downstream, store: D1MutationStore?, hasUser: bool, body: Option<seq<Mutation>>,
                        faults: nat -> Fault)
    returns (results: Option<seq<Outcome>>)
    modifies downstream, store
    ensures body.None? ==>
              results.None? && downstream.calls == old(downstream.calls) && TableOf(store) == old(TableOf(store))
    ensures body.Some? ==>
              var start := State(map[], old(TableOf(store)), old(downstream.calls));
              var l := ReplayUnder(Config(downstream.oracle, store != null, hasUser), start, body.value, faults);
              && results == l.results && downstream.calls == l.state.calls
                  && TableOf(store) == (if store != null then l.state.table else map[])
  {
    if body.None? {
      return None;
    }
    var batch := body.value;
    ghost var cfg := Config(downstream.oracle, store != null, hasUser);
    ghost var start := State(map[], TableOf(store), downstream.calls);
    var done: seq<Outcome> := [];
    var seen: map<Key, Outcome> := map[];
    assert batch[..|batch|] == batch;
    for i := 0 to |batch|
      invariant ReplayUnder(cfg, start, batch[..i], faults) == Left(State(seen, TableOf(store), downstream.calls),
              Some(done), [])
    {
      var m := batch[i];
      assert batch[..i + 1][..i] == batch[..i];
      ReplayStops(cfg, start, batch, faults, i);
      if !WellFormed(m) {
        done := done + [Outcome(if m.Mutation? then m.key else Key(""), Error, VALIDATION_FAILED)];
        continue;
      }
      if m.key in seen {
        done := done + [seen[m.key].(status := Duplicate)];
        continue;
      }
      if store != null {
        if faults(i).GetRejects? {
          return None;
        }
        var persisted := store.Get(m.key);
        if persisted.Some? {
          seen := seen[m.key := persisted.value];
          done := done + [persisted.value.(status := Duplicate)];
          continue;
        }
      }
      var result: Outcome;
      var route := Route(m);
      if route.Forward? {
        var reply := downstream.Send(route.call);
        result := OutcomeOf(m.key, reply);
      } else {
        result := Outcome(m.key, Error, route.error);
      }
      if store != null && hasUser && (result.status == Applied || result.status == Conflict) {
        if faults(i).SaveRejects? {
          if faults(i).stored {
            store.Save(m.key, result);
          }
          return None;
        }
        store.Save(m.key, result);
      }
      seen := seen[m.key := result];
      done := done + [result];
    }
    return Some(done);
  }

  // A rejected request stays as it was left, whatever else the batch holds.
  lemma {:induction false} ReplayStops(cfg: Config, s: State, batch: seq<Mutation>, faults: nat -> Fault, i: nat)
    requires i < |batch|
    ensures ReplayUnder(cfg, s, batch[..i + 1], faults).results.None? ==>
              ReplayUnder(cfg, s, batch, faults) == ReplayUnder(cfg, s, batch[..i + 1], faults)
    decreases |batch|
  {
    if i + 1 < |batch| {
      var n := |batch| - 1;
      ReplayStops(cfg, s, batch[..n], faults, i);
      assert batch[..n][..i + 1] == batch[..i + 1];
    } else {
      assert batch[..i + 1] == batch;
    }
  }
}
