// The sync protocol over whole runs: the event service changes and emits envelopes, the
// queue delivers them at least once and in any order, and one client pulls. A pull reads
// its watermark first and its pages one by one, so writes race every part of it.
module SyncProtocol {

  import opened Options
  import opened ChangeLog
  import opened Sync

  // `from` is the cursor sent with the request, `head` the watermark read before the fan-out.
  datatype Pull = Idle | Reading(from: Option<nat>, head: nat, events: seq<Item>)

  // sent[i] is the envelope with id i.
  datatype State = State(live: map<EntityId, Data>, sent: seq<Envelope>, log: seq<Row>,
                         mirror: map<EntityId, Data>, cursor: Option<nat>, pull: Pull)

  datatype Step =
    | Create(id: EntityId, data: Data)
    | Update(id: EntityId, data: Data)
    | Archive(id: EntityId)
    | Emit(name: string, payload: map<string, EntityId>)  // task, action and unknown envelopes
    | Deliver(i: nat, gap: nat)
    | StartPull
    | ReadPage(ids: seq<EntityId>)
    | FailPull
    | FinishPull(tasks: seq<Item>, inbox: seq<Item>)
    | DropCursor

  const INITIAL: State := State(map[], [], [], map[], None, Idle)

  function EventEnvelope(n: nat, verb: string, id: EntityId): Envelope {
    Envelope(n, "event." + verb, map["eventId" := id])
  }

  function Sent(s: State, verb: string, id: EntityId): State {
    s.(sent := s.sent + [EventEnvelope(|s.sent|, verb, id)])
  }

  predicate Enabled(s: State, step: Step) {
    match step
    case Create(id, _) => id !in s.live && id.text != ""
    case Update(id, _) => id in s.live
    case Archive(id) => id in s.live
    case Emit(name, payload) => name != ArchivedName(Event)
    case Deliver(i, _) => i < |s.sent|
    case StartPull => s.pull.Idle?
    case ReadPage(ids) => s.pull.Reading? && forall id <- ids :: id in s.live
    case FailPull => s.pull.Reading?
    case FinishPull(_, _) => s.pull.Reading?
    case DropCursor => s.pull.Idle?
  }

  function PageOf(live: map<EntityId, Data>, ids: seq<EntityId>): (items: seq<Item>)
    requires forall id <- ids :: id in live
    ensures |items| == |ids| && forall i :: 0 <= i < |ids| ==> items[i] == Item(ids[i], live[ids[i]])
  {
    seq(|ids|, i requires 0 <= i < |ids| => Item(ids[i], live[ids[i]]))
  }

  function Delivered(log: seq<Row>, env: Envelope, gap: nat): seq<Row> {
    if Ingest(env).Some? then Appended(log, Ingest(env).value, gap) else log
  }

  function Next(s: State, step: Step): State
    requires Enabled(s, step)
  {
    match step
    case Create(id, data) => Sent(s.(live := s.live[id := data]), "created", id)
    case Update(id, data) => Sent(s.(live := s.live[id := data]), "updated", id)
    case Archive(id) => Sent(s.(live := s.live - {id}), "archived", id)
    case Emit(name, payload) => s.(sent := s.sent + [Envelope(|s.sent|, name, payload)])
    case Deliver(i, gap) => s.(log := Delivered(s.log, s.sent[i], gap))
    case StartPull => s.(pull := Reading(s.cursor, Head(s.log), []))
    case ReadPage(ids) => s.(pull := s.pull.(events := s.pull.events + PageOf(s.live, ids)))
    case FailPull => s.(pull := Idle)
    case FinishPull(tasks, inbox) =>
      s.(mirror := AfterPull(s.mirror, s.log, s.pull.from, s.pull.head, s.pull.events, tasks, inbox),
         cursor := Some(s.pull.head), pull := Idle)
    case DropCursor => s.(cursor := None)
  }

  ghost predicate Runs(s: State, steps: seq<Step>)
    decreases |steps|
  {
    steps == [] || (Enabled(s, steps[0]) && Runs(Next(s, steps[0]), steps[1..]))
  }

  ghost function After(s: State, steps: seq<Step>): State
    requires Runs(s, steps)
    decreases |steps|
  {
    if steps == [] then s else After(Next(s, steps[0]), steps[1..])
  }

  // ---- what the client is still owed ----

  predicate IsArchiveOf(env: Envelope, id: EntityId) {
    Ingest(env) == Some(Entry(env.id, Event, id, Delete))
  }

  ghost predicate LastArchive(sent: seq<Envelope>, id: EntityId, k: nat) {
    && k < |sent| && IsArchiveOf(sent[k], id)
    && forall j :: k < j < |sent| ==> !IsArchiveOf(sent[j], id)
  }

  // Envelope k has no row yet, or its row is past `seq_`.
  ghost predicate Ahead(log: seq<Row>, k: nat, seq_: nat) {
    forall r <- log :: r.entry.eventId == k ==> r.seq_ > seq_
  }

  // The latest archive notice of id is still undelivered or logged past `seq_`.
  ghost predicate Owed(sent: seq<Envelope>, log: seq<Row>, id: EntityId, seq_: nat) {
    exists k :: LastArchive(sent, id, k) && Ahead(log, k, seq_)
  }

  // No removed row outlives its tombstone in the mirror.
  ghost predicate SafeAt(s: State, seq_: nat) {
    forall id :: id in s.mirror && id !in s.live ==> Owed(s.sent, s.log, id, seq_)
  }

  ghost predicate Safe(s: State) {
    s.cursor.Some? ==> SafeAt(s, s.cursor.value)
  }

  // Rows come from sent envelopes, in ascending order, once each.
  ghost predicate LogOk(sent: seq<Envelope>, log: seq<Row>) {
    && Ascending(log) && OncePerEvent(log)
    && (forall i :: 0 <= i < |sent| ==> sent[i].id == i)
    && (forall r <- log :: r.entry.eventId < |sent| && Ingest(sent[r.entry.eventId]) == Some(r.entry))
  }

  // Rows read by the pull but archived since are owed past the watermark.
  ghost predicate ReadOwed(s: State, events: seq<Item>, head: nat) {
    forall id :: id in IdsOf(events) && id !in s.live ==> Owed(s.sent, s.log, id, head)
  }

  // A stale mirror row the pull has not read is owed past the watermark, or its tombstone
  // lies in the window the pull will drain.
  ghost predicate StaleOwed(s: State, events: seq<Item>, from: nat, head: nat) {
    forall id :: id in s.mirror && id !in s.live && id !in IdsOf(events) ==>
      Owed(s.sent, s.log, id, head) || TombstoneIn(s.log, from, head, id)
  }

  ghost predicate PullOk(s: State) {
    s.pull.Reading? ==>
      && s.pull.from == s.cursor
      && s.pull.head <= Head(s.log)
      && ReadOwed(s, s.pull.events, s.pull.head)
      && (s.pull.from.Some? ==> StaleOwed(s, s.pull.events, s.pull.from.value, s.pull.head))
  }

  ghost predicate Inv(s: State) {
    && LogOk(s.sent, s.log)
    && (s.cursor.Some? ==> s.cursor.value <= Head(s.log))
    && Safe(s)
    && PullOk(s)
    && forall id :: id in s.live ==> id.text != ""
  }

  // ---- each step keeps the invariant ----

  lemma OwedAfterEmit(sent: seq<Envelope>, log: seq<Row>, env: Envelope, id: EntityId, q: nat)
    requires LogOk(sent, log)
    requires Owed(sent, log, id, q) || IsArchiveOf(env, id)
    ensures Owed(sent + [env], log, id, q)
  {
    hide Ingest, Ascending, OncePerEvent;
    var sent' := sent + [env];
    if IsArchiveOf(env, id) {
      assert LastArchive(sent', id, |sent|) && Ahead(log, |sent|, q);
    } else {
      var k :| LastArchive(sent, id, k) && Ahead(log, k, q);
      assert LastArchive(sent', id, k);
    }
  }

  lemma EmitLog(sent: seq<Envelope>, log: seq<Row>, env: Envelope)
    requires LogOk(sent, log) && env.id == |sent|
    ensures LogOk(sent + [env], log)
  {
    hide Ingest, Ascending, OncePerEvent;
  }

  // A change of the live set together with its envelope.
  lemma EmitKeeps(s: State, t: State, env: Envelope)
    requires Inv(s) && env.id == |s.sent|
    requires t == s.(live := t.live, sent := s.sent + [env])
    requires forall id :: id in s.live && id !in t.live ==> IsArchiveOf(env, id)
    requires forall id :: id in t.live ==> id.text != ""
    ensures Inv(t)
  {
    EmitLog(s.sent, s.log, env);
    forall id, q: nat | Owed(s.sent, s.log, id, q) || IsArchiveOf(env, id) ensures Owed(t.sent, t.log, id, q) {
      OwedAfterEmit(s.sent, s.log, env, id, q);
    }
    hide LogOk, IsArchiveOf, Head, Owed, TombstoneIn, IdsOf;
  }

  lemma ArchivedEnvelope(n: nat, id: EntityId)
    requires id.text != ""
    ensures IsArchiveOf(EventEnvelope(n, "archived", id), id)
  {
    assert "event." + "archived" == ArchivedName(Event);
    ArchivedIsDelete(EventEnvelope(n, "archived", id), Event);
    hide Ingest;
  }

  lemma DeliverLog(sent: seq<Envelope>, log: seq<Row>, i: nat, gap: nat)
    requires LogOk(sent, log) && i < |sent|
    ensures LogOk(sent, Delivered(log, sent[i], gap))
    ensures log <= Delivered(log, sent[i], gap)
    ensures forall r :: r in Delivered(log, sent[i], gap) && r !in log ==> r.seq_ > Head(log)
  {
    if Ingest(sent[i]).Some? && !Logged(log, i) {
      assert Ingest(sent[i]).value.eventId == i;
      AppendRow(sent, log, i, Row(Head(log) + 1 + gap, Ingest(sent[i]).value));
    }
  }

  lemma AppendRow(sent: seq<Envelope>, log: seq<Row>, i: nat, r: Row)
    requires LogOk(sent, log) && i < |sent| && !Logged(log, i)
    requires r.seq_ > Head(log) && r.entry.eventId == i && Ingest(sent[i]) == Some(r.entry)
    ensures LogOk(sent, log + [r])
    ensures forall q :: q in log + [r] && q !in log ==> q.seq_ > Head(log)
  {
    hide Ingest;
  }

  lemma OwedAfterDeliver(sent: seq<Envelope>, log: seq<Row>, log': seq<Row>, id: EntityId, q: nat)
    requires Owed(sent, log, id, q) && q <= Head(log)
    requires forall r :: r in log' && r !in log ==> r.seq_ > Head(log)
    ensures Owed(sent, log', id, q)
  {
    var k :| LastArchive(sent, id, k) && Ahead(log, k, q);
    assert Ahead(log', k, q);
  }

  lemma HeadGrows(log: seq<Row>, log': seq<Row>)
    requires log <= log'
    ensures Head(log) <= Head(log')
  {
    if log != [] {
      var j :| 0 <= j < |log| && log[j].seq_ == Head(log);
      assert log'[j] == log[j];
    }
  }

  lemma TombstoneStays(log: seq<Row>, log': seq<Row>, a: nat, b: nat, id: EntityId)
    requires log <= log' && TombstoneIn(log, a, b, id)
    ensures TombstoneIn(log', a, b, id)
  {
    var r :| r in log && InWindow(r, a, b) && r.entry.entityType == Event && r.entry.entityId == id;
    var j :| 0 <= j < |log| && log[j] == r;
    assert log'[j] == r;
  }

  lemma DeliverKeeps(s: State, i: nat, gap: nat)
    requires Inv(s) && i < |s.sent|
    ensures Inv(s.(log := Delivered(s.log, s.sent[i], gap)))
  {
    var log := Delivered(s.log, s.sent[i], gap);
    DeliverLog(s.sent, s.log, i, gap);
    HeadGrows(s.log, log);
    hide LogOk, Delivered, Head;
    forall id, q: nat | Owed(s.sent, s.log, id, q) && q <= Head(s.log) ensures Owed(s.sent, log, id, q) {
      OwedAfterDeliver(s.sent, s.log, log, id, q);
    }
    forall id, a, b | TombstoneIn(s.log, a, b, id) ensures TombstoneIn(log, a, b, id) {
      TombstoneStays(s.log, log, a, b, id);
    }
    hide Owed, TombstoneIn, IdsOf;
  }

  lemma ArchiveRow(sent: seq<Envelope>, log: seq<Row>, id: EntityId, k: nat, r: Row)
    requires LogOk(sent, log) && k < |sent| && IsArchiveOf(sent[k], id) && r in log && r.entry.eventId == k
    ensures r.entry == Entry(k, Event, id, Delete) && r.seq_ <= Head(log)
  {
    hide Ingest, Ascending, OncePerEvent;
    assert Ingest(sent[r.entry.eventId]) == Some(r.entry);
  }

  lemma AheadSplits(sent: seq<Envelope>, log: seq<Row>, id: EntityId, k: nat, q: nat)
    requires LogOk(sent, log) && k < |sent| && IsArchiveOf(sent[k], id) && Ahead(log, k, q)
    ensures Ahead(log, k, Head(log)) || TombstoneIn(log, q, Head(log), id)
  {
    forall r | r in log && r.entry.eventId == k ensures r.entry == Entry(k, Event, id, Delete) && r.seq_ <= Head(log) {
      ArchiveRow(sent, log, id, k, r);
    }
    hide LogOk, IsArchiveOf, Head;
    if exists r <- log :: r.entry.eventId == k {
      var r :| r in log && r.entry.eventId == k;
      assert InWindow(r, q, Head(log));
    }
  }

  // Starting a pull: what was owed past the cursor is owed past the head or lies in the window.
  lemma OwedSplits(sent: seq<Envelope>, log: seq<Row>, id: EntityId, q: nat)
    requires LogOk(sent, log) && Owed(sent, log, id, q)
    ensures Owed(sent, log, id, Head(log)) || TombstoneIn(log, q, Head(log), id)
  {
    var k :| LastArchive(sent, id, k) && Ahead(log, k, q);
    AheadSplits(sent, log, id, k, q);
  }

  lemma StartKeeps(s: State)
    requires Inv(s) && s.pull.Idle?
    ensures Inv(Next(s, StartPull))
  {
    forall id, q: nat | Owed(s.sent, s.log, id, q)
        ensures Owed(s.sent, s.log, id, Head(s.log)) || TombstoneIn(s.log, q, Head(s.log), id) {
      OwedSplits(s.sent, s.log, id, q);
    }
    hide LogOk, Owed, TombstoneIn, Head;
  }

  lemma ReadKeeps(s: State, ids: seq<EntityId>)
    requires Inv(s) && Enabled(s, ReadPage(ids))
    ensures Inv(Next(s, ReadPage(ids)))
  {
    var t := Next(s, ReadPage(ids));
    forall id | id in IdsOf(t.pull.events) ensures id in IdsOf(s.pull.events) || id in s.live {
      var i :| 0 <= i < |t.pull.events| && t.pull.events[i].id == id;
      if i >= |s.pull.events| {
        assert ids[i - |s.pull.events|] in ids;
      } else {
        assert s.pull.events[i].id == id;
      }
    }
    forall id | id in IdsOf(s.pull.events) ensures id in IdsOf(t.pull.events) {
      var i :| 0 <= i < |s.pull.events| && s.pull.events[i].id == id;
      assert t.pull.events[i].id == id;
    }
    hide LogOk, Owed, TombstoneIn, Head, IdsOf;
  }

  lemma FinishKeeps(s: State, tasks: seq<Item>, inbox: seq<Item>)
    requires Inv(s) && s.pull.Reading?
    ensures Inv(Next(s, FinishPull(tasks, inbox)))
  {
    var t := Next(s, FinishPull(tasks, inbox));
    AfterPullIs(s.mirror, s.log, s.pull.from, s.pull.head, s.pull.events, tasks, inbox);
    hide LogOk, Owed, TombstoneIn, Head, IdsOf, AfterPull;
    forall id | id in t.mirror && id !in t.live ensures Owed(t.sent, t.log, id, t.cursor.value) {
      assert id in IdsOf(s.pull.events) || (s.pull.from.Some? && id in s.mirror);
    }
  }

  lemma StepKeeps(s: State, step: Step)
    requires Inv(s) && Enabled(s, step)
    ensures Inv(Next(s, step))
  {
    var t := Next(s, step);
    hide LogOk, Owed, TombstoneIn, IdsOf, Delivered, IsArchiveOf, Head;
    match step
    case Create(id, data) => EmitKeeps(s, t, EventEnvelope(|s.sent|, "created", id));
    case Update(id, data) => EmitKeeps(s, t, EventEnvelope(|s.sent|, "updated", id));
    case Archive(id) =>
      ArchivedEnvelope(|s.sent|, id);
      EmitKeeps(s, t, EventEnvelope(|s.sent|, "archived", id));
    case Emit(name, payload) => EmitKeeps(s, t, Envelope(|s.sent|, name, payload));
    case Deliver(i, gap) => DeliverKeeps(s, i, gap);
    case StartPull => StartKeeps(s);
    case ReadPage(ids) => ReadKeeps(s, ids);
    case FailPull =>
    case FinishPull(tasks, inbox) => FinishKeeps(s, tasks, inbox);
    case DropCursor =>
  }

  // ---- every run ----

  lemma {:induction false} RunKeeps(s: State, steps: seq<Step>)
    requires Inv(s) && Runs(s, steps)
    ensures Inv(After(s, steps))
    decreases |steps|
  {
    if steps != [] {
      StepKeeps(s, steps[0]);
      RunKeeps(Next(s, steps[0]), steps[1..]);
    }
  }

  // In every run, a mirrored row that is no longer live has its latest archive notice
  // still undelivered or logged past the client's cursor.
  lemma SyncSafety(steps: seq<Step>, id: EntityId)
    requires Runs(INITIAL, steps)
    ensures var s := After(INITIAL, steps);
            s.cursor.Some? && id in s.mirror && id !in s.live ==> Owed(s.sent, s.log, id, s.cursor.value)
  {
    assert Inv(INITIAL);
    RunKeeps(INITIAL, steps);
  }

  // ---- convergence ----

  ghost predicate AllDelivered(s: State) {
    forall k :: 0 <= k < |s.sent| && Ingest(s.sent[k]).Some? ==> Logged(s.log, k)
  }

  // The rest of a pull nothing races: pages, then the response.
  ghost predicate QuietRest(steps: seq<Step>) {
    |steps| > 0 && steps[|steps| - 1].FinishPull? && forall i :: 0 <= i < |steps| - 1 ==> steps[i].ReadPage?
  }

  ghost predicate Reads(steps: seq<Step>, id: EntityId) {
    exists i :: 0 <= i < |steps| && steps[i].ReadPage? && id in steps[i].ids
  }

  ghost predicate Snapshot(s: State, events: seq<Item>) {
    forall item <- events :: item.id in s.live && item.data == s.live[item.id]
  }

  lemma {:induction false} QuietEffect(s: State, steps: seq<Step>)
      returns (events: seq<Item>, tasks: seq<Item>, inbox: seq<Item>)
    requires s.pull.Reading? && QuietRest(steps) && Runs(s, steps) && Snapshot(s, s.pull.events)
    ensures Snapshot(s, events)
    ensures forall id :: id in IdsOf(events) <==> id in IdsOf(s.pull.events) || Reads(steps, id)
    ensures After(s, steps).mirror == AfterPull(s.mirror, s.log, s.pull.from, s.pull.head, events, tasks, inbox)
    ensures After(s, steps).live == s.live
    decreases |steps|
  {
    var step := steps[0];
    if |steps| == 1 {
      events, tasks, inbox := s.pull.events, step.tasks, step.inbox;
      assert After(s, steps) == Next(s, step);
    } else {
      var t := Next(s, step);
      assert QuietRest(steps[1..]);
      assert Snapshot(t, t.pull.events);
      events, tasks, inbox := QuietEffect(t, steps[1..]);
      forall id ensures Reads(steps, id) <==> id in step.ids || Reads(steps[1..], id) {
        ReadsStep(steps, id);
      }
      PageIds(s, step.ids);
    }
  }

  lemma ReadsStep(steps: seq<Step>, id: EntityId)
    requires |steps| > 0 && steps[0].ReadPage?
    ensures Reads(steps, id) <==> id in steps[0].ids || Reads(steps[1..], id)
  {
    if Reads(steps[1..], id) {
      var i :| 0 <= i < |steps[1..]| && steps[1..][i].ReadPage? && id in steps[1..][i].ids;
      assert steps[i + 1] == steps[1..][i];
    }
    if Reads(steps, id) && id !in steps[0].ids {
      var i :| 0 <= i < |steps| && steps[i].ReadPage? && id in steps[i].ids;
      assert steps[1..][i - 1] == steps[i];
    }
  }

  lemma PageIds(s: State, ids: seq<EntityId>)
    requires s.pull.Reading? && forall id <- ids :: id in s.live
    ensures forall id :: id in IdsOf(s.pull.events + PageOf(s.live, ids)) <==> id in IdsOf(s.pull.events) || id in ids
  {
    var all := s.pull.events + PageOf(s.live, ids);
    forall id | id in IdsOf(s.pull.events) ensures id in IdsOf(all) {
      var i :| 0 <= i < |s.pull.events| && s.pull.events[i].id == id;
      assert all[i].id == id;
    }
    forall id | id in ids ensures id in IdsOf(all) {
      var i :| 0 <= i < |ids| && ids[i] == id;
      assert all[|s.pull.events| + i].id == id;
    }
  }

  // A pull nothing races, over pages that cover the live set, leaves the mirror equal to
  // it exactly when every stale row has its tombstone in the window.
  lemma QuietPullExact(s: State, rest: seq<Step>)
    requires s.pull.Idle? && QuietRest(rest) && Runs(s, [StartPull] + rest)
    requires forall id :: id in s.live ==> Reads(rest, id)
    ensures After(s, [StartPull] + rest).mirror == s.live <==>
            (s.cursor.None? || forall id :: id in s.mirror && id !in s.live ==>
                                 TombstoneIn(s.log, s.cursor.value, Head(s.log), id))
  {
    var steps := [StartPull] + rest;
    var t := Next(s, StartPull);
    assert steps[1..] == rest && After(s, steps) == After(t, rest);
    var events, tasks, inbox := QuietEffect(t, rest);
    CoveredPull(s.live, s.mirror, s.log, s.cursor, Head(s.log), events, tasks, inbox);
  }

  lemma CoveredPull(live: map<EntityId, Data>, mirror: map<EntityId, Data>, log: seq<Row>, from: Option<nat>, head: nat,
                    events: seq<Item>, tasks: seq<Item>, inbox: seq<Item>)
    requires forall item <- events :: item.id in live && item.data == live[item.id]
    requires forall id :: id in live ==> id in IdsOf(events)
    ensures AfterPull(mirror, log, from, head, events, tasks, inbox) == live <==>
            (from.None? || forall id :: id in mirror && id !in live ==> TombstoneIn(log, from.value, head, id))
  {
    AfterPullIs(mirror, log, from, head, events, tasks, inbox);
    var m := AfterPull(mirror, log, from, head, events, tasks, inbox);
    forall id | id in IdsOf(events) ensures id in live && m[id] == live[id] {
      assert Item(id, m[id]) in events;
    }
    hide TombstoneIn, IdsOf, AfterPull;
  }

  // Once every notice is delivered, one such pull converges, from any reachable state.
  lemma SyncConverges(steps: seq<Step>, rest: seq<Step>)
    requires Runs(INITIAL, steps)
    requires var s := After(INITIAL, steps);
             && s.pull.Idle? && AllDelivered(s) && QuietRest(rest) && Runs(s, [StartPull] + rest)
             && forall id :: id in s.live ==> Reads(rest, id)
    ensures var s := After(INITIAL, steps);
            After(s, [StartPull] + rest).mirror == s.live
  {
    var s := After(INITIAL, steps);
    assert Inv(INITIAL);
    RunKeeps(INITIAL, steps);
    if s.cursor.Some? {
      forall id | id in s.mirror && id !in s.live ensures TombstoneIn(s.log, s.cursor.value, Head(s.log), id) {
        OwedSplits(s.sent, s.log, id, s.cursor.value);
        NothingOwed(s, id);
      }
    }
    QuietPullExact(s, rest);
  }

  lemma NothingOwed(s: State, id: EntityId)
    requires LogOk(s.sent, s.log) && AllDelivered(s)
    ensures !Owed(s.sent, s.log, id, Head(s.log))
  {
    forall k: nat | LastArchive(s.sent, id, k) ensures !Ahead(s.log, k, Head(s.log)) {
      assert IsArchiveOf(s.sent[k], id) && Logged(s.log, k);
      var i :| 0 <= i < |s.log| && s.log[i].entry.eventId == k;
      ArchiveRow(s.sent, s.log, id, k, s.log[i]);
    }
  }
}
