// The change log behind differential sync: which domain events become rows, and the
// append-only table the pull reads its watermark and delete tombstones from.
module ChangeLog {

  import opened Options

  datatype EntityId = EntityId(text: string)
  datatype EntityType = Event | Action | Task
  datatype Op = Upsert | Delete

  // Only the string-valued payload fields matter; `id` is the envelope's ULID.
  datatype Envelope = Envelope(id: nat, name: string, payload: map<string, EntityId>)

  datatype Entry = Entry(eventId: nat, entityType: EntityType, entityId: EntityId, op: Op)

  const SUBSCRIBED: set<string> := {
    "event.created", "event.updated", "event.phase_changed", "event.archived",
    "action.created", "action.updated", "action.status_changed", "action.archived",
    "task.created", "task.updated", "task.assigned", "task.status_changed", "task.due_soon", "task.archived"
  }

  function IdKey(t: EntityType): string {
    match t
    case Event => "eventId"
    case Action => "actionId"
    case Task => "taskId"
  }

  // Index of the first dot, or the length when there is none.
  function FirstDot(name: string): (k: nat)
    ensures k <= |name| && (k < |name| ==> name[k] == '.')
    ensures forall i :: 0 <= i < k ==> name[i] != '.'
  {
    if name == "" || name[0] == '.' then 0 else 1 + FirstDot(name[1..])
  }

  function DomainOf(domain: string): Option<EntityType> {
    if domain == "event" then Some(Event)
    else if domain == "action" then Some(Action)
    else if domain == "task" then Some(Task)
    else None
  }

  function EntryFromEvent(env: Envelope): Option<Entry> {
    var dot := FirstDot(env.name);
    if dot == |env.name| then None
    else
      var t := DomainOf(env.name[..dot]);
      if t.None? || IdKey(t.value) !in env.payload || env.payload[IdKey(t.value)].text == "" then None
      else Some(Entry(env.id, t.value, env.payload[IdKey(t.value)], if env.name[dot + 1..] == "archived" then Delete
          else Upsert))
  }

  function Ingest(env: Envelope): Option<Entry> {
    if env.name in SUBSCRIBED then EntryFromEvent(env) else None
  }

  function DomainName(t: EntityType): (d: string)
    ensures '.' !in d
  {
    match t
    case Event => "event"
    case Action => "action"
    case Task => "task"
  }

  function ArchivedName(t: EntityType): string {
    DomainName(t) + "." + "archived"
  }

  lemma DotAt(name: string, domain: string, verb: string)
    requires name == domain + "." + verb && '.' !in domain
    ensures FirstDot(name) == |domain| && name[..|domain|] == domain && name[|domain| + 1..] == verb
  {
    assert name[|domain|] == '.';
    assert forall i :: 0 <= i < |domain| ==> name[i] == domain[i] && name[i] in domain;
  }

  lemma ArchivedSubscribed(t: EntityType)
    ensures ArchivedName(t) in SUBSCRIBED
  {
    assert ArchivedName(Event) == "event.archived";
    assert ArchivedName(Action) == "action.archived";
    assert ArchivedName(Task) == "task.archived";
  }

  lemma ArchivedEntry(env: Envelope, t: EntityType)
    requires env.name == ArchivedName(t)
    ensures EntryFromEvent(env) == if IdKey(t) in env.payload && env.payload[IdKey(t)].text != ""
                                   then Some(Entry(env.id, t, env.payload[IdKey(t)], Delete)) else None
  {
    DotAt(env.name, DomainName(t), "archived");
    hide FirstDot, ArchivedName;
    assert DomainOf(DomainName(t)) == Some(t);
  }

  // An archived notice that names its entity becomes the delete row of that entity; one
  // that does not is acknowledged without a row.
  lemma ArchivedIsDelete(env: Envelope, t: EntityType)
    requires env.name == ArchivedName(t)
    ensures Ingest(env) == if IdKey(t) in env.payload && env.payload[IdKey(t)].text != ""
                           then Some(Entry(env.id, t, env.payload[IdKey(t)], Delete)) else None
  {
    ArchivedSubscribed(t);
    ArchivedEntry(env, t);
    hide EntryFromEvent, ArchivedName, IdKey;
  }

  lemma DeleteEntry(env: Envelope)
    requires EntryFromEvent(env).Some? && EntryFromEvent(env).value.op == Delete
    ensures var e := EntryFromEvent(env).value;
            && env.name == ArchivedName(e.entityType) && e.eventId == env.id
            && IdKey(e.entityType) in env.payload && env.payload[IdKey(e.entityType)] == e.entityId
                && e.entityId.text != ""
  {
    var dot := FirstDot(env.name);
    hide FirstDot, IdKey;
    assert env.name == env.name[..dot] + ['.'] + env.name[dot + 1..];
    assert env.name[..dot] == DomainName(DomainOf(env.name[..dot]).value);
  }

  // Nothing else becomes a delete row.
  lemma DeleteIsArchived(env: Envelope)
    requires Ingest(env).Some? && Ingest(env).value.op == Delete
    ensures var e := Ingest(env).value;
            && env.name == ArchivedName(e.entityType) && e.eventId == env.id
            && IdKey(e.entityType) in env.payload && env.payload[IdKey(e.entityType)] == e.entityId
                && e.entityId.text != ""
  {
    DeleteEntry(env);
    hide EntryFromEvent, ArchivedName, IdKey;
  }

  // The subscribed notices are named by entity and verb, and name the entity under its own key:
  // "task.updated" carries "taskId". They become its row, a delete only when archived.
  predicate IsNotice(env: Envelope, t: EntityType, domain: string, verb: string) {
    && env.name == domain + "." + verb
    && (t, domain) in {(Event, "event"), (Action, "action"), (Task, "task")}
    && (domain + "Id") in env.payload && env.payload[domain + "Id"].text != ""
  }

  lemma NoticeEntry(env: Envelope, t: EntityType, domain: string, verb: string)
    requires IsNotice(env, t, domain, verb)
    ensures EntryFromEvent(env) ==
            Some(Entry(env.id, t, env.payload[domain + "Id"], if verb == "archived" then Delete else Upsert))
  {
    assert domain == "event" || domain == "action" || domain == "task";
    assert '.' !in domain && IdKey(t) == domain + "Id";
    DotAt(env.name, domain, verb);
    hide FirstDot;
  }

  lemma EntryNotice(env: Envelope) returns (domain: string, verb: string)
    requires EntryFromEvent(env).Some?
    ensures IsNotice(env, EntryFromEvent(env).value.entityType, domain, verb)
  {
    var dot := FirstDot(env.name);
    domain, verb := env.name[..dot], env.name[dot + 1..];
    assert env.name == domain + "." + verb;
    assert domain == "event" || domain == "action" || domain == "task";
    assert IdKey(EntryFromEvent(env).value.entityType) == domain + "Id";
    hide FirstDot;
  }

  // Those rows and no others.
  lemma RowIffNotice(env: Envelope, e: Entry)
    ensures Ingest(env) == Some(e) <==>
            && env.name in SUBSCRIBED
            && exists domain, verb ::
                 && IsNotice(env, e.entityType, domain, verb)
                 && e == Entry(env.id, e.entityType, env.payload[domain + "Id"],
                               if verb == "archived" then Delete else Upsert)
  {
    if Ingest(env) == Some(e) {
      var domain, verb := EntryNotice(env);
      NoticeEntry(env, e.entityType, domain, verb);
    }
    if domain, verb :| IsNotice(env, e.entityType, domain, verb)
                       && e == Entry(env.id, e.entityType, env.payload[domain + "Id"],
                                     if verb == "archived" then Delete else Upsert) {
      NoticeEntry(env, e.entityType, domain, verb);
    }
    hide EntryFromEvent;
  }

  // ---- the table ----

  datatype Row = Row(seq_: nat, entry: Entry)

  predicate Logged(rows: seq<Row>, eventId: nat) {
    exists i :: 0 <= i < |rows| && rows[i].entry.eventId == eventId
  }

  function Head(rows: seq<Row>): (h: nat)
    ensures forall i :: 0 <= i < |rows| ==> rows[i].seq_ <= h
    ensures rows != [] ==> exists i :: 0 <= i < |rows| && rows[i].seq_ == h
  {
    if rows == [] then 0
    else
      var n := |rows| - 1;
      if rows[n].seq_ > Head(rows[..n]) then rows[n].seq_ else Head(rows[..n])
  }

  // The database picks the next number: larger than every one in use, gaps allowed.
  function Appended(rows: seq<Row>, entry: Entry, gap: nat): seq<Row> {
    if Logged(rows, entry.eventId) then rows else rows + [Row(Head(rows) + 1 + gap, entry)]
  }

  predicate InWindow(r: Row, after: nat, upTo: nat) {
    r.entry.op == Delete && after < r.seq_ <= upTo
  }

  function DeletesIn(rows: seq<Row>, after: nat, upTo: nat): seq<Row> {
    if rows == [] then []
    else
      var n := |rows| - 1;
      DeletesIn(rows[..n], after, upTo) + if InWindow(rows[n], after, upTo) then [rows[n]] else []
  }

  ghost predicate Ascending(rows: seq<Row>) {
    forall i, j :: 0 <= i < j < |rows| ==> rows[i].seq_ < rows[j].seq_
  }

  ghost predicate OncePerEvent(rows: seq<Row>) {
    forall i, j :: 0 <= i < j < |rows| ==> rows[i].entry.eventId != rows[j].entry.eventId
  }

  lemma {:induction false} DeletesInMembers(rows: seq<Row>, after: nat, upTo: nat)
    ensures forall r :: r in DeletesIn(rows, after, upTo) <==> r in rows && InWindow(r, after, upTo)
  {
    if rows != [] {
      var n := |rows| - 1;
      DeletesInMembers(rows[..n], after, upTo);
      assert rows == rows[..n] + [rows[n]];
    }
  }

  class D1ChangeLog {
    var rows: seq<Row>

    ghost predicate Valid()
      reads this
    {
      Ascending(rows) && OncePerEvent(rows)
    }

    constructor ()
      ensures Valid() && rows == []
    {
      rows := [];
    }

    // ON CONFLICT DO NOTHING: a redelivered envelope adds no second row.
    method Append(entry: Entry, gap: nat)
      requires Valid()
      modifies this
      ensures Valid() && rows == Appended(old(rows), entry, gap)
      ensures Logged(rows, entry.eventId)
      ensures old(rows) <= rows
    {
      if Logged(rows, entry.eventId) {
        return;
      }
      rows := rows + [Row(Head(rows) + 1 + gap, entry)];
      assert rows[|rows| - 1].entry.eventId == entry.eventId;
    }

    method IngestEvent(env: Envelope, gap: nat) returns (appended: bool)
      requires Valid()
      modifies this
      ensures Valid() && appended == Ingest(env).Some?
      ensures rows == if Ingest(env).Some? then Appended(old(rows), Ingest(env).value, gap) else old(rows)
    {
      var entry := Ingest(env);
      if entry.None? {
        return false;
      }
      Append(entry.value, gap);
      return true;
    }

    method HeadSeq() returns (h: nat)
      requires Valid()
      ensures h == Head(rows)
      ensures rows == [] ==> h == 0
      ensures rows != [] ==> h == rows[|rows| - 1].seq_
    {
      h := if rows == [] then 0 else rows[|rows| - 1].seq_;
      HeadIsLast(rows);
    }

    method DeletesSince(after: nat, upTo: nat) returns (deletes: seq<Row>)
      requires Valid()
      ensures deletes == DeletesIn(rows, after, upTo) && Ascending(deletes)
    {
      deletes := [];
      if upTo <= after {
        EmptyWindow(rows, after, upTo);
        return;
      }
      for i := 0 to |rows|
        invariant deletes == DeletesIn(rows[..i], after, upTo)
        invariant Ascending(deletes) && forall k :: 0 <= k < |deletes| ==> deletes[k] in rows[..i]
      {
        assert rows[..i + 1][..i] == rows[..i];
        assert forall k :: 0 <= k < |deletes| ==> deletes[k].seq_ < rows[i].seq_;
        if InWindow(rows[i], after, upTo) {
          deletes := deletes + [rows[i]];
        }
      }
      assert rows[..|rows|] == rows;
    }
  }

  lemma {:induction false} EmptyWindow(rows: seq<Row>, after: nat, upTo: nat)
    requires upTo <= after
    ensures DeletesIn(rows, after, upTo) == []
  {
    if rows != [] {
      EmptyWindow(rows[..|rows| - 1], after, upTo);
    }
  }

  lemma HeadIsLast(rows: seq<Row>)
    requires Ascending(rows)
    ensures Head(rows) == if rows == [] then 0 else rows[|rows| - 1].seq_
  {
  }
}
