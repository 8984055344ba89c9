// One sync pull: draining a paged source, assembling the change list, and what the
// client's event mirror becomes when it applies that list.
module Sync {

  import opened Options
  import opened ChangeLog

  const MAX_PAGES: nat := 50

  type Data = int

  datatype Item = Item(id: EntityId, data: Data)

  // `next` is "" when the source reports the end.
  datatype Page = Page(items: seq<Item>, next: string)

  datatype Resource = EventRow | TaskRow | InboxRow
  datatype Change = Put(resource: Resource, item: Item) | Drop(resource: Resource, id: EntityId)

  // ---- paging ----

  function Drained(page: string -> Page, cursor: string, n: nat): seq<Item>
    decreases n
  {
    if n == 0 then []
    else
      var p := page(cursor);
      p.items + if p.next == "" then [] else Drained(page, p.next, n - 1)
  }

  // The cursor of the page after the first n, when the chain goes that far.
  function CursorAt(page: string -> Page, cursor: string, n: nat): Option<string>
    decreases n
  {
    if n == 0 then Some(cursor)
    else if page(cursor).next == "" then None
    else CursorAt(page, page(cursor).next, n - 1)
  }

  method FetchAllPages(page: string -> Page) returns (out: seq<Item>)
    ensures out == Drained(page, "", 50)
  {
    out := [];
    var cursor := "";
    for i := 0 to MAX_PAGES
      invariant Drained(page, "", MAX_PAGES) == out + Drained(page, cursor, MAX_PAGES - i)
    {
      var res := page(cursor);
      assert out + Drained(page, cursor, MAX_PAGES - i) == out + res.items + if res.next == "" then []
          else Drained(page, res.next, MAX_PAGES - i - 1);
      out := out + res.items;
      if res.next == "" {
        return;
      }
      cursor := res.next;
    }
  }

  function ItemsAt(page: string -> Page, cursor: string, n: nat): seq<Item> {
    if CursorAt(page, cursor, n).Some? then page(CursorAt(page, cursor, n).value).items else []
  }

  lemma AssocItems(a: seq<Item>, b: seq<Item>, c: seq<Item>)
    ensures a + (b + c) == a + b + c
  {
  }

  lemma AddsNothing(a: seq<Item>, b: seq<Item>)
    ensures a + b == a <==> b == []
  {
    assert |a + b| == |a| + |b|;
  }

  lemma FirstPage(page: string -> Page, cursor: string, n: nat)
    requires n > 0
    ensures page(cursor).next == "" ==> Drained(page, cursor, n) == page(cursor).items && ItemsAt(page, cursor, n) == []
    ensures page(cursor).next != "" ==>
              && Drained(page, cursor, n) == page(cursor).items + Drained(page, page(cursor).next, n - 1)
              && ItemsAt(page, cursor, n) == ItemsAt(page, page(cursor).next, n - 1)
  {
    AddsNothing(page(cursor).items, []);
  }

  lemma {:induction false} OneMorePage(page: string -> Page, cursor: string, n: nat)
    ensures Drained(page, cursor, n + 1) == Drained(page, cursor, n) + ItemsAt(page, cursor, n)
    decreases n
  {
    var p := page(cursor);
    FirstPage(page, cursor, n + 1);
    if n == 0 {
      assert Drained(page, p.next, 0) == [] && Drained(page, cursor, 0) == [] && ItemsAt(page, cursor, 0) == p.items;
      AddsNothing(p.items, []);
      assert [] + p.items == p.items;
    } else {
      FirstPage(page, cursor, n);
      AddsNothing(p.items, []);
      if p.next != "" {
        OneMorePage(page, p.next, n - 1);
        AssocItems(p.items, Drained(page, p.next, n - 1), ItemsAt(page, p.next, n - 1));
      }
    }
    hide ItemsAt, Drained;
  }

  lemma {:induction false} EmptyRest(page: string -> Page, m: nat)
    requires m >= MAX_PAGES && NothingLeft(page)
    ensures Drained(page, "", m) == Drained(page, "", MAX_PAGES)
  {
    if m > MAX_PAGES {
      EmptyRest(page, m - 1);
      OneMorePage(page, "", m - 1);
      AddsNothing(Drained(page, "", m - 1), ItemsAt(page, "", m - 1));
      assert ItemsAt(page, "", m - 1) == [];
    }
  }

  ghost predicate NothingMissing(page: string -> Page) {
    forall m: nat :: m >= MAX_PAGES ==> Drained(page, "", m) == Drained(page, "", MAX_PAGES)
  }

  ghost predicate NothingLeft(page: string -> Page) {
    forall n: nat {:trigger ItemsAt(page, "", n)} :: n >= MAX_PAGES ==> ItemsAt(page, "", n) == []
  }

  // However far one would follow the chain, it holds no more than what was fetched: exactly
  // when no page past the bound holds an item, because it has ended or is empty from there on.
  lemma DrainCompleteIff(page: string -> Page)
    ensures NothingMissing(page) <==> NothingLeft(page)
  {
    hide Drained, ItemsAt;
    if NothingMissing(page) {
      forall n: nat | n >= MAX_PAGES ensures ItemsAt(page, "", n) == [] {
        OneMorePage(page, "", n);
        AddsNothing(Drained(page, "", n), ItemsAt(page, "", n));
        assert Drained(page, "", n) == Drained(page, "", MAX_PAGES) == Drained(page, "", n + 1);
      }
    }
    if NothingLeft(page) {
      forall m: nat | m >= MAX_PAGES ensures Drained(page, "", m) == Drained(page, "", MAX_PAGES) {
        EmptyRest(page, m);
      }
    }
  }

  // ---- the change list ----

  function Puts(r: Resource, items: seq<Item>): (c: seq<Change>)
    ensures |c| == |items| && forall i :: 0 <= i < |c| ==> c[i] == Put(r, items[i])
  {
    seq(|items|, i requires 0 <= i < |items| => Put(r, items[i]))
  }

  function IdsOf(items: seq<Item>): set<EntityId> {
    set i | 0 <= i < |items| :: items[i].id
  }

  // A tombstone of a row that is live again is suppressed: the upsert wins.
  function DropFor(r: Row, liveEvents: set<EntityId>, liveTasks: set<EntityId>): seq<Change> {
    if r.entry.entityType == Event && r.entry.entityId !in liveEvents then [Drop(EventRow, r.entry.entityId)]
    else if r.entry.entityType == Task && r.entry.entityId !in liveTasks then [Drop(TaskRow, r.entry.entityId)]
    else []
  }

  function Drops(rows: seq<Row>, liveEvents: set<EntityId>, liveTasks: set<EntityId>): seq<Change> {
    if rows == [] then []
    else Drops(rows[..|rows| - 1], liveEvents, liveTasks) + DropFor(rows[|rows| - 1], liveEvents, liveTasks)
  }

  // A pull without a cursor carries no tombstones: it rebuilds the mirror.
  function SyncItems(rows: seq<Row>, from: Option<nat>, head: nat, events: seq<Item>, tasks: seq<Item>,
                     inbox: seq<Item>): seq<Change> {
    Puts(EventRow, events) + Puts(TaskRow, tasks) + Puts(InboxRow, inbox) +
    if from.Some? && head > from.value then Drops(DeletesIn(rows, from.value, head), IdsOf(events), IdsOf(tasks))
        else []
  }

  lemma NextDrop(base: seq<Change>, rows: seq<Row>, k: nat, liveEvents: set<EntityId>, liveTasks: set<EntityId>)
    requires k < |rows|
    ensures base + Drops(rows[..k + 1], liveEvents, liveTasks) ==
            base + Drops(rows[..k], liveEvents, liveTasks) + DropFor(rows[k], liveEvents, liveTasks)
  {
    assert rows[..k + 1][..k] == rows[..k];
    hide DropFor;
  }

  // The part of buildSync after the fan-out: `headSeq` was read before it.
  method BuildSync(log: D1ChangeLog, from: Option<nat>, headSeq: nat, events: seq<Item>, tasks: seq<Item>,
                   inbox: seq<Item>)
    returns (items: seq<Change>)
    requires log.Valid()
    ensures items == SyncItems(log.rows, from, headSeq, events, tasks, inbox)
  {
    items := Puts(EventRow, events) + Puts(TaskRow, tasks) + Puts(InboxRow, inbox);
    if from.Some? && headSeq > from.value {
      var liveEvents, liveTasks := IdsOf(events), IdsOf(tasks);
      var tombstones := log.DeletesSince(from.value, headSeq);
      ghost var base := items;
      for k := 0 to |tombstones|
        invariant items == base + Drops(tombstones[..k], liveEvents, liveTasks)
      {
        var t := tombstones[k];
        NextDrop(base, tombstones, k, liveEvents, liveTasks);
        hide Drops;
        if t.entry.entityType == Event && t.entry.entityId !in liveEvents {
          items := items + [Drop(EventRow, t.entry.entityId)];
        } else if t.entry.entityType == Task && t.entry.entityId !in liveTasks {
          items := items + [Drop(TaskRow, t.entry.entityId)];
        }
      }
      assert tombstones[..|tombstones|] == tombstones;
    }
  }

  // ---- what the list holds, row by row ----

  // A delete of this kind of entity was logged after the cursor and no later than the watermark.
  predicate Gone(rows: seq<Row>, after: nat, upTo: nat, kind: EntityType, id: EntityId) {
    exists r <- rows :: after < r.seq_ <= upTo && r.entry == Entry(r.entry.eventId, kind, id, Delete)
  }

  lemma {:induction false} DropsMembers(rows: seq<Row>, liveEvents: set<EntityId>, liveTasks: set<EntityId>, c: Change)
    ensures c in Drops(rows, liveEvents, liveTasks) <==>
            exists r <- rows :: c in DropFor(r, liveEvents, liveTasks)
  {
    if rows != [] {
      var n := |rows| - 1;
      DropsMembers(rows[..n], liveEvents, liveTasks, c);
      hide DropFor;
      assert rows == rows[..n] + [rows[n]];
    }
  }

  lemma WindowDrops(rows: seq<Row>, after: nat, upTo: nat, liveEvents: set<EntityId>, liveTasks: set<EntityId>,
                    c: Change)
    ensures c in Drops(DeletesIn(rows, after, upTo), liveEvents, liveTasks) <==>
            c.Drop? && ((c.resource == EventRow && c.id !in liveEvents && Gone(rows, after, upTo, Event, c.id))
                        || (c.resource == TaskRow && c.id !in liveTasks && Gone(rows, after, upTo, Task, c.id)))
  {
    DropsMembers(DeletesIn(rows, after, upTo), liveEvents, liveTasks, c);
    DeletesInMembers(rows, after, upTo);
    hide DeletesIn, Drops;
    if r :| r in DeletesIn(rows, after, upTo) && c in DropFor(r, liveEvents, liveTasks) {
      assert r in rows && r.entry == Entry(r.entry.eventId, r.entry.entityType, c.id, Delete);
    }
    if c.Drop? && c.resource == EventRow && c.id !in liveEvents && Gone(rows, after, upTo, Event, c.id) {
      var r :| r in rows && after < r.seq_ <= upTo && r.entry == Entry(r.entry.eventId, Event, c.id, Delete);
      assert r in DeletesIn(rows, after, upTo) && c == Drop(EventRow, c.id);
    }
    if c.Drop? && c.resource == TaskRow && c.id !in liveTasks && Gone(rows, after, upTo, Task, c.id) {
      var r :| r in rows && after < r.seq_ <= upTo && r.entry == Entry(r.entry.eventId, Task, c.id, Delete);
      assert r in DeletesIn(rows, after, upTo) && c == Drop(TaskRow, c.id);
    }
  }

  lemma PutsMembers(r: Resource, items: seq<Item>, c: Change)
    ensures c in Puts(r, items) <==> c.Put? && c.resource == r && c.item in items
  {
    if c.Put? && c.resource == r && c.item in items {
      var i :| 0 <= i < |items| && items[i] == c.item;
      assert Puts(r, items)[i] == c;
    }
  }

  // Every snapshot row is sent, as an upsert, and no other row is; a tombstone is sent
  // exactly for an event or task whose delete was logged in the window and that is not in the
  // snapshot again. A pull without a cursor has none, and the inbox never has.
  lemma PullItemsAre(rows: seq<Row>, from: Option<nat>, head: nat, events: seq<Item>, tasks: seq<Item>,
                     inbox: seq<Item>, c: Change)
    ensures c in SyncItems(rows, from, head, events, tasks, inbox) <==>
            match c
            case Put(EventRow, x) => x in events
            case Put(TaskRow, x) => x in tasks
            case Put(InboxRow, x) => x in inbox
            case Drop(EventRow, id) => from.Some? && id !in IdsOf(events) && Gone(rows, from.value, head, Event, id)
            case Drop(TaskRow, id) => from.Some? && id !in IdsOf(tasks) && Gone(rows, from.value, head, Task, id)
            case Drop(InboxRow, _) => false
  {
    PutsMembers(EventRow, events, c);
    PutsMembers(TaskRow, tasks, c);
    PutsMembers(InboxRow, inbox, c);
    if from.Some? && head > from.value {
      WindowDrops(rows, from.value, head, IdsOf(events), IdsOf(tasks), c);
    }
    hide Puts, Drops, DeletesIn, IdsOf;
  }

  // The upserts come first, so that the client's last word on a row is the snapshot's.
  lemma PutsFirst(rows: seq<Row>, from: Option<nat>, head: nat, events: seq<Item>, tasks: seq<Item>,
                  inbox: seq<Item>, i: nat)
    requires i < |SyncItems(rows, from, head, events, tasks, inbox)|
    ensures SyncItems(rows, from, head, events, tasks, inbox)[i].Put? <==> i < |events| + |tasks| + |inbox|
  {
    var n := |events| + |tasks| + |inbox|;
    if from.Some? && head > from.value && i >= n {
      var ds := Drops(DeletesIn(rows, from.value, head), IdsOf(events), IdsOf(tasks));
      assert ds[i - n] in ds;
      WindowDrops(rows, from.value, head, IdsOf(events), IdsOf(tasks), ds[i - n]);
    }
    hide Drops, DeletesIn, IdsOf, Gone;
  }

  // ---- the client's event mirror ----

  function ApplyChange(mirror: map<EntityId, Data>, c: Change): map<EntityId, Data> {
    match c
    case Put(EventRow, item) => mirror[item.id := item.data]
    case Drop(EventRow, id) => mirror - {id}
    case _ => mirror
  }

  function ApplyAll(mirror: map<EntityId, Data>, cs: seq<Change>): map<EntityId, Data> {
    if cs == [] then mirror
    else ApplyChange(ApplyAll(mirror, cs[..|cs| - 1]), cs[|cs| - 1])
  }

  lemma {:induction false} ApplyConcat(mirror: map<EntityId, Data>, a: seq<Change>, b: seq<Change>)
    ensures ApplyAll(mirror, a + b) == ApplyAll(ApplyAll(mirror, a), b)
  {
    if b == [] {
      assert a + b == a;
    } else {
      var n := |b| - 1;
      ApplyConcat(mirror, a, b[..n]);
      assert (a + b)[..|a| + n] == a + b[..n];
    }
  }

  lemma {:induction false} ApplyPuts(mirror: map<EntityId, Data>, items: seq<Item>)
    ensures var m := ApplyAll(mirror, Puts(EventRow, items));
            && m.Keys == mirror.Keys + IdsOf(items)
            && (forall id :: id in mirror && id !in IdsOf(items) ==> m[id] == mirror[id])
            && (forall id :: id in IdsOf(items) ==> Item(id, m[id]) in items)
  {
    var cs := Puts(EventRow, items);
    if items != [] {
      var n := |items| - 1;
      ApplyPuts(mirror, items[..n]);
      assert cs[..n] == Puts(EventRow, items[..n]);
      assert items == items[..n] + [items[n]];
      assert IdsOf(items) == IdsOf(items[..n]) + {items[n].id};
    }
  }

  lemma {:induction false} ApplyOthers(mirror: map<EntityId, Data>, cs: seq<Change>)
    requires forall c <- cs :: c.resource != EventRow
    ensures ApplyAll(mirror, cs) == mirror
  {
    if cs != [] {
      ApplyOthers(mirror, cs[..|cs| - 1]);
    }
  }

  predicate Buried(rows: seq<Row>, id: EntityId) {
    exists r <- rows :: r.entry.entityType == Event && r.entry.entityId == id
  }

  lemma BuriedStep(rows: seq<Row>, r: Row, id: EntityId)
    ensures Buried(rows + [r], id) <==> Buried(rows, id) || (r.entry.entityType == Event && r.entry.entityId == id)
  {
    if Buried(rows, id) {
      var q :| q in rows && q.entry.entityType == Event && q.entry.entityId == id;
      assert q in rows + [r];
    }
  }

  ghost predicate DropsApplied(mirror: map<EntityId, Data>, m: map<EntityId, Data>, rows: seq<Row>,
                               liveEvents: set<EntityId>) {
    && (forall id :: id in m <==> id in mirror && (id in liveEvents || !Buried(rows, id)))
    && (forall id :: id in m ==> m[id] == mirror[id])
  }

  lemma DropStep(mirror: map<EntityId, Data>, before: map<EntityId, Data>, rows: seq<Row>, r: Row,
                 liveEvents: set<EntityId>, liveTasks: set<EntityId>)
    requires DropsApplied(mirror, before, rows, liveEvents)
    ensures DropsApplied(mirror, ApplyAll(before, DropFor(r, liveEvents, liveTasks)), rows + [r], liveEvents)
  {
    forall id {
      BuriedStep(rows, r, id);
    }
    var last := DropFor(r, liveEvents, liveTasks);
    assert last != [] ==> last[..0] == [] && ApplyAll(before, last) == ApplyChange(before, last[0]);
    hide Buried;
  }

  lemma {:induction false} ApplyDrops(mirror: map<EntityId, Data>, rows: seq<Row>, liveEvents: set<EntityId>,
                                      liveTasks: set<EntityId>)
    ensures DropsApplied(mirror, ApplyAll(mirror, Drops(rows, liveEvents, liveTasks)), rows, liveEvents)
  {
    if rows != [] {
      var n := |rows| - 1;
      ApplyDrops(mirror, rows[..n], liveEvents, liveTasks);
      hide DropsApplied;
      DropStep(mirror, ApplyAll(mirror, Drops(rows[..n], liveEvents, liveTasks)), rows[..n], rows[n], liveEvents,
          liveTasks);
      ApplyConcat(mirror, Drops(rows[..n], liveEvents, liveTasks), DropFor(rows[n], liveEvents, liveTasks));
      assert rows == rows[..n] + [rows[n]];
    }
  }

  // The mirror a client without a cursor starts from is empty.
  function AfterPull(mirror: map<EntityId, Data>, rows: seq<Row>, from: Option<nat>, head: nat,
                     events: seq<Item>, tasks: seq<Item>, inbox: seq<Item>): map<EntityId, Data>
  {
    ApplyAll(if from.Some? then mirror else map[], SyncItems(rows, from, head, events, tasks, inbox))
  }

  predicate TombstoneIn(rows: seq<Row>, after: nat, upTo: nat, id: EntityId) {
    exists r <- rows :: InWindow(r, after, upTo) && r.entry.entityType == Event && r.entry.entityId == id
  }

  // A row survives a pull exactly when the snapshot has it, or the mirror had it and the
  // window holds no tombstone for it. Snapshot data wins.
  lemma AfterPullIs(mirror: map<EntityId, Data>, rows: seq<Row>, from: Option<nat>, head: nat,
                    events: seq<Item>, tasks: seq<Item>, inbox: seq<Item>)
    ensures var m := AfterPull(mirror, rows, from, head, events, tasks, inbox);
            && (forall id :: id in m <==>
                  id in IdsOf(events) || (from.Some? && id in mirror && !TombstoneIn(rows, from.value, head, id)))
            && (forall id :: id in m && id !in IdsOf(events) ==> m[id] == mirror[id])
            && (forall id :: id in IdsOf(events) ==> Item(id, m[id]) in events)
  {
    var base: map<EntityId, Data> := if from.Some? then mirror else map[];
    var e, t, i := Puts(EventRow, events), Puts(TaskRow, tasks), Puts(InboxRow, inbox);
    ApplyPuts(base, events);
    ApplyConcat(base, e, t);
    ApplyOthers(ApplyAll(base, e), t);
    ApplyConcat(base, e + t, i);
    ApplyOthers(ApplyAll(base, e), i);
    var m1 := ApplyAll(base, e + t + i);
    assert m1 == ApplyAll(base, e);
    if from.Some? && head > from.value {
      var ds := DeletesIn(rows, from.value, head);
      ApplyDrops(m1, ds, IdsOf(events), IdsOf(tasks));
      ApplyConcat(base, e + t + i, Drops(ds, IdsOf(events), IdsOf(tasks)));
      BuriedIff(rows, from.value, head);
    } else {
      assert e + t + i + [] == e + t + i;
    }
  }

  lemma BuriedIff(rows: seq<Row>, after: nat, upTo: nat)
    ensures forall id :: Buried(DeletesIn(rows, after, upTo), id) <==> TombstoneIn(rows, after, upTo, id)
  {
    DeletesInMembers(rows, after, upTo);
    forall id ensures Buried(DeletesIn(rows, after, upTo), id) <==> TombstoneIn(rows, after, upTo, id) {
      if TombstoneIn(rows, after, upTo, id) {
        var r :| r in rows && InWindow(r, after, upTo) && r.entry.entityType == Event && r.entry.entityId == id;
        assert r in DeletesIn(rows, after, upTo);
      }
    }
  }
}
