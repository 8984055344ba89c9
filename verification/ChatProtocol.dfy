// Sends, acks, failures, deliveries, deletions and reloads on one channel, in any order.
module ChatProtocol {

  import opened Options
  import opened ChatStore

  datatype SendStatus = Waiting | Acked | Rejected

  // `seen` holds the server ids the list owes the user: acked or announced, minus deleted
  // ones; a reload replaces it by the page.
  datatype World = World(arr: seq<Entry>, sends: map<Id, SendStatus>, seen: set<Id>)

  datatype Op =
    | Send(localId: Id, author: Id, body: Text, at: int)
    | Ack(localId: Id, serverId: Id)
    | Fail(localId: Id)
    | Announce(serverId: Id)
    | Delete(serverId: Id)
    | Load(page: seq<Id>)

  const START: World := World([], map[], {})

  // What the server stores under each id.
  ghost predicate IsServer(server: Id -> Message) {
    forall id :: server(id).id == id
  }

  predicate Enabled(w: World, op: Op) {
    match op
    case Send(l, _, _, _) => l !in w.sends
    case Ack(l, _) => l in w.sends && w.sends[l] == Waiting
    case Fail(l) => l in w.sends && w.sends[l] == Waiting
    case Announce(_) => true
    case Delete(id) => id !in w.sends
    case Load(page) => forall i, j :: 0 <= i < j < |page| ==> page[i] != page[j]
  }

  function Next(server: Id -> Message, channel: Id, w: World, op: Op): World {
    match op
    case Send(l, author, body, at) =>
      World(w.arr + [Optimistic(l, channel, author, body, at)], w.sends[l := Waiting], w.seen)
    case Ack(l, id) => World(Promoted(w.arr, l, server(id)), w.sends[l := Acked], w.seen + {id})
    case Fail(l) => World(Marked(w.arr, l, Failed), w.sends[l := Rejected], w.seen)
    case Announce(id) => World(Upserted(w.arr, server(id)), w.sends, w.seen + {id})
    case Delete(id) => World(Removed(w.arr, id), w.sends, w.seen - {id})
    case Load(page) => World(Loaded(seq(|page|, i requires 0 <= i < |page| => server(page[i]))), w.sends,
        set i | 0 <= i < |page| :: page[i])
  }

  ghost predicate Runs(server: Id -> Message, channel: Id, w: World, ops: seq<Op>)
    decreases |ops|
  {
    ops == [] || (Enabled(w, ops[0]) && Runs(server, channel, Next(server, channel, w, ops[0]), ops[1..]))
  }

  ghost function After(server: Id -> Message, channel: Id, w: World, ops: seq<Op>): World
    decreases |ops|
  {
    if ops == [] then w else After(server, channel, Next(server, channel, w, ops[0]), ops[1..])
  }

  // ---- the list as two sets ----

  function ConfirmedIds(arr: seq<Entry>): set<Id> {
    set i | 0 <= i < |arr| && arr[i].localId.None? :: arr[i].message.id
  }

  function LocalIds(arr: seq<Entry>): set<Id> {
    set i | 0 <= i < |arr| && arr[i].localId.Some? :: arr[i].localId.value
  }

  // One key per row: its server id once confirmed, its local id before.
  function Key(e: Entry): (Id, bool) {
    if e.localId.None? then (e.message.id, true) else (e.localId.value, false)
  }

  ghost predicate Neat(arr: seq<Entry>) {
    forall i, j :: 0 <= i < j < |arr| ==> Key(arr[i]) != Key(arr[j])
  }

  lemma PushKeys(arr: seq<Entry>, e: Entry)
    requires Neat(arr) && (if e.localId.None? then e.message.id !in ConfirmedIds(arr)
            else e.localId.value !in LocalIds(arr))
    ensures Neat(arr + [e])
    ensures ConfirmedIds(arr + [e]) == ConfirmedIds(arr) + if e.localId.None? then {e.message.id} else {}
    ensures LocalIds(arr + [e]) == LocalIds(arr) + if e.localId.Some? then {e.localId.value} else {}
  {
    var b := arr + [e];
    assert forall i :: 0 <= i < |b| ==> b[i] == if i < |arr| then arr[i] else e;
    assert b[|arr|] == e;
    forall i | 0 <= i < |arr| ensures Key(arr[i]) != Key(e) {
      assert arr[i].localId.None? ==> arr[i].message.id in ConfirmedIds(arr);
      assert arr[i].localId.Some? ==> arr[i].localId.value in LocalIds(arr);
    }
    forall id ensures id in ConfirmedIds(b) <==> id in ConfirmedIds(arr) || (e.localId.None? && id == e.message.id) {
      if id in ConfirmedIds(arr) {
        var i :| 0 <= i < |arr| && arr[i].localId.None? && arr[i].message.id == id;
        assert b[i] == arr[i];
      }
    }
    forall id ensures id in LocalIds(b) <==> id in LocalIds(arr) || (e.localId.Some? && id == e.localId.value) {
      if id in LocalIds(arr) {
        var i :| 0 <= i < |arr| && arr[i].localId.Some? && arr[i].localId.value == id;
        assert b[i] == arr[i];
      }
    }
  }

  lemma LocalLeaves(arr: seq<Entry>, b: seq<Entry>, k: nat)
    requires Neat(arr) && k < |arr| && arr[k].localId.Some?
    requires forall i :: 0 <= i < |arr| && i != k ==> arr[i] in b
    requires forall e <- b :: e.localId.Some? ==> exists i :: 0 <= i < |arr| && i != k && arr[i] == e
    ensures LocalIds(b) == LocalIds(arr) - {arr[k].localId.value}
  {
    var l := arr[k].localId.value;
    forall id | id in LocalIds(b) ensures id in LocalIds(arr) && id != l {
      var j :| 0 <= j < |b| && b[j].localId == Some(id);
      assert b[j] in b;
      var i :| 0 <= i < |arr| && i != k && arr[i] == b[j];
      assert Key(arr[i]) != Key(arr[k]);
    }
    forall id | id in LocalIds(arr) && id != l ensures id in LocalIds(b) {
      var i :| 0 <= i < |arr| && arr[i].localId == Some(id);
      var j :| 0 <= j < |b| && b[j] == arr[i];
    }
  }

  lemma CutRows(arr: seq<Entry>, k: nat)
    requires k < |arr|
    ensures forall i :: 0 <= i < |arr| && i != k ==> arr[i] in Cut(arr, k)
    ensures forall e <- Cut(arr, k) :: exists i :: 0 <= i < |arr| && i != k && arr[i] == e
    ensures Neat(arr) ==> Neat(Cut(arr, k))
  {
    var b := Cut(arr, k);
    assert forall i :: 0 <= i < |b| ==> b[i] == arr[if i < k then i else i + 1];
    forall i | 0 <= i < |arr| && i != k ensures arr[i] in b {
      assert b[if i < k then i else i - 1] == arr[i];
    }
    forall e | e in b ensures exists i :: 0 <= i < |arr| && i != k && arr[i] == e {
      var j :| 0 <= j < |b| && b[j] == e;
      assert arr[if j < k then j else j + 1] == e;
    }
  }

  lemma CutKeys(arr: seq<Entry>, k: nat)
    requires Neat(arr) && k < |arr| && arr[k].localId.Some?
    ensures Neat(Cut(arr, k))
    ensures ConfirmedIds(Cut(arr, k)) == ConfirmedIds(arr)
    ensures LocalIds(Cut(arr, k)) == LocalIds(arr) - {arr[k].localId.value}
  {
    var b := Cut(arr, k);
    CutRows(arr, k);
    hide Cut;
    LocalLeaves(arr, b, k);
    hide Neat, LocalIds;
    forall id ensures id in ConfirmedIds(arr) <==> id in ConfirmedIds(b) {
      if id in ConfirmedIds(arr) {
        var i :| 0 <= i < |arr| && arr[i].localId.None? && arr[i].message.id == id;
        var j :| 0 <= j < |b| && b[j] == arr[i];
      }
      if id in ConfirmedIds(b) {
        var j :| 0 <= j < |b| && b[j].localId.None? && b[j].message.id == id;
        assert b[j] in b;
        var i :| 0 <= i < |arr| && i != k && arr[i] == b[j];
      }
    }
  }

  lemma PromoteKeys(arr: seq<Entry>, k: nat, e: Entry)
    requires Neat(arr) && k < |arr| && arr[k].localId.Some? && e.localId.None? && e.message.id !in ConfirmedIds(arr)
    ensures Neat(arr[k := e])
    ensures ConfirmedIds(arr[k := e]) == ConfirmedIds(arr) + {e.message.id}
    ensures LocalIds(arr[k := e]) == LocalIds(arr) - {arr[k].localId.value}
  {
    var b := arr[k := e];
    assert b[k] == e;
    forall i | 0 <= i < |arr| && i != k ensures arr[i] in b && Key(arr[i]) != Key(e) {
      assert b[i] == arr[i];
      assert arr[i].localId.None? ==> arr[i].message.id in ConfirmedIds(arr);
    }
    forall x | x in b && x.localId.Some? ensures exists i :: 0 <= i < |arr| && i != k && arr[i] == x {
      var j :| 0 <= j < |b| && b[j] == x;
    }
    LocalLeaves(arr, b, k);
    forall id | id in ConfirmedIds(arr) ensures id in ConfirmedIds(b) {
      var i :| 0 <= i < |arr| && arr[i].localId.None? && arr[i].message.id == id;
      assert b[i] == arr[i];
    }
  }

  lemma HasConfirmedIff(arr: seq<Entry>, id: Id)
    ensures HasConfirmed(arr, id) <==> id in ConfirmedIds(arr)
  {
  }

  // ---- the invariant ----

  // Confirmed rows are what the server stores; optimistic ones are sends not settled by an ack.
  ghost predicate RowOk(server: Id -> Message, sends: map<Id, SendStatus>, e: Entry) {
    match e.localId
    case None => e == Confirm(server(e.message.id))
    case Some(l) => l in sends && e.message.id == l
                    && ((sends[l] == Waiting && e.state == Pending) || (sends[l] == Rejected && e.state == Failed))
  }

  ghost predicate Inv(server: Id -> Message, w: World) {
    && IsServer(server)
    && Neat(w.arr)
    && ConfirmedIds(w.arr) == w.seen
    && forall e <- w.arr :: RowOk(server, w.sends, e)
  }

  lemma LocalsAreSends(server: Id -> Message, w: World)
    requires Inv(server, w)
    ensures forall l :: l in LocalIds(w.arr) ==> l in w.sends && w.sends[l] != Acked
  {
    forall l | l in LocalIds(w.arr) ensures l in w.sends && w.sends[l] != Acked {
      var i :| 0 <= i < |w.arr| && w.arr[i].localId == Some(l);
      assert RowOk(server, w.sends, w.arr[i]);
    }
  }

  lemma SendKeeps(server: Id -> Message, channel: Id, w: World, op: Op)
    requires Inv(server, w) && Enabled(w, op) && op.Send?
    ensures Inv(server, Next(server, channel, w, op))
  {
    var e := Optimistic(op.localId, channel, op.author, op.body, op.at);
    LocalsAreSends(server, w);
    PushKeys(w.arr, e);
  }

  // One server message arrives: by promoting the row at k, or as a new row.
  lemma ConfirmKeeps(server: Id -> Message, arr: seq<Entry>, k: nat, id: Id)
    requires IsServer(server) && Neat(arr) && k <= |arr| && (k < |arr| ==> arr[k].localId.Some?)
    requires id !in ConfirmedIds(arr)
    ensures var b := if k < |arr| then arr[k := Confirm(server(id))] else arr + [Confirm(server(id))];
            && Neat(b) && ConfirmedIds(b) == ConfirmedIds(arr) + {id}
            && LocalIds(b) == LocalIds(arr) - (if k < |arr| then {arr[k].localId.value} else {})
            && forall e <- b :: e == Confirm(server(id)) || e in arr
  {
    if k < |arr| {
      PromoteKeys(arr, k, Confirm(server(id)));
    } else {
      PushKeys(arr, Confirm(server(id)));
    }
  }

  lemma AnnounceKeeps(server: Id -> Message, channel: Id, w: World, id: Id)
    requires Inv(server, w)
    ensures Inv(server, Next(server, channel, w, Announce(id)))
  {
    HasConfirmedIff(w.arr, id);
    if id !in w.seen {
      ConfirmKeeps(server, w.arr, FirstMatch(w.arr, server(id)), id);
    }
  }

  lemma AckList(server: Id -> Message, w: World, l: Id, id: Id)
    requires Inv(server, w)
    ensures var b := Promoted(w.arr, l, server(id));
            && Neat(b) && ConfirmedIds(b) == w.seen + {id} && LocalIds(b) == LocalIds(w.arr) - {l}
            && forall e <- b :: e == Confirm(server(id)) || e in w.arr
  {
    HasConfirmedIff(w.arr, id);
    var k := FirstLocal(w.arr, l);
    if k == |w.arr| {
      assert l !in LocalIds(w.arr);
    }
    if id in w.seen {
      if k < |w.arr| {
        CutKeys(w.arr, k);
      }
    } else {
      ConfirmKeeps(server, w.arr, k, id);
    }
  }

  lemma AckKeeps(server: Id -> Message, channel: Id, w: World, l: Id, id: Id)
    requires Inv(server, w) && Enabled(w, Ack(l, id))
    ensures Inv(server, Next(server, channel, w, Ack(l, id)))
  {
    AckList(server, w, l, id);
    var t := Next(server, channel, w, Ack(l, id));
    forall e | e in t.arr ensures RowOk(server, t.sends, e) {
      if e != Confirm(server(id)) {
        assert e in w.arr && RowOk(server, w.sends, e);
        var i :| 0 <= i < |t.arr| && t.arr[i] == e;
        assert e.localId.Some? ==> e.localId.value in LocalIds(t.arr);
      }
    }
  }

  lemma MarkKeys(arr: seq<Entry>, l: Id, state: SendState)
    ensures var b := Marked(arr, l, state);
            && (Neat(arr) ==> Neat(b)) && ConfirmedIds(b) == ConfirmedIds(arr) && LocalIds(b) == LocalIds(arr)
            && |b| == |arr|
            && forall i :: 0 <= i < |b| ==>
                 b[i] == arr[i] || (arr[i].localId == Some(l) && b[i] == arr[i].(state := state))
  {
    var b := Marked(arr, l, state);
    assert |b| == |arr| && forall i :: 0 <= i < |b| ==> Key(b[i]) == Key(arr[i]) && (b[i].localId == arr[i].localId);
    assert forall i :: 0 <= i < |b| ==> b[i].message == arr[i].message;
  }

  lemma FailKeeps(server: Id -> Message, channel: Id, w: World, l: Id)
    requires Inv(server, w) && Enabled(w, Fail(l))
    ensures Inv(server, Next(server, channel, w, Fail(l)))
  {
    MarkKeys(w.arr, l, Failed);
    var t := Next(server, channel, w, Fail(l));
    forall e | e in t.arr ensures RowOk(server, t.sends, e) {
      var i :| 0 <= i < |t.arr| && t.arr[i] == e;
      assert w.arr[i] in w.arr && RowOk(server, w.sends, w.arr[i]);
      OnlyLocal(w.arr, l, i);
    }
  }

  // In a neat list the first row with a local id is the only one.
  lemma OnlyLocal(arr: seq<Entry>, l: Id, i: nat)
    requires Neat(arr) && i < |arr|
    ensures arr[i].localId == Some(l) ==> FirstLocal(arr, l) == i
  {
    var k := FirstLocal(arr, l);
    if k < i {
      assert Key(arr[k]) != Key(arr[i]);
    }
  }

  lemma CutConfirmed(arr: seq<Entry>, k: nat)
    requires Neat(arr) && k < |arr| && arr[k].localId.None?
    ensures Neat(Cut(arr, k)) && ConfirmedIds(Cut(arr, k)) == ConfirmedIds(arr) - {arr[k].message.id}
  {
    var b := Cut(arr, k);
    CutRows(arr, k);
    hide Cut;
    forall id ensures id in ConfirmedIds(b) <==> id in ConfirmedIds(arr) && id != arr[k].message.id {
      if id in ConfirmedIds(arr) && id != arr[k].message.id {
        var i :| 0 <= i < |arr| && arr[i].localId.None? && arr[i].message.id == id;
        var j :| 0 <= j < |b| && b[j] == arr[i];
      }
      if id in ConfirmedIds(b) {
        var j :| 0 <= j < |b| && b[j].localId.None? && b[j].message.id == id;
        assert b[j] in b;
        var i :| 0 <= i < |arr| && i != k && arr[i] == b[j];
        assert Key(arr[i]) != Key(arr[k]);
      }
    }
  }

  lemma DeleteKeeps(server: Id -> Message, channel: Id, w: World, id: Id)
    requires Inv(server, w) && Enabled(w, Delete(id))
    ensures Inv(server, Next(server, channel, w, Delete(id)))
    ensures Neat(Removed(w.arr, id))
    ensures forall e <- Removed(w.arr, id) :: e in w.arr
    ensures forall e <- w.arr :: e.localId.Some? ==> e in Removed(w.arr, id)
  {
    var k := FirstId(w.arr, id);
    if k < |w.arr| {
      assert RowOk(server, w.sends, w.arr[k]);
      CutConfirmed(w.arr, k);
      CutRows(w.arr, k);
    } else {
      assert id !in ConfirmedIds(w.arr);
    }
  }

  lemma LoadKeeps(server: Id -> Message, channel: Id, w: World, page: seq<Id>)
    requires Inv(server, w) && Enabled(w, Load(page))
    ensures Inv(server, Next(server, channel, w, Load(page)))
    ensures LocalIds(Next(server, channel, w, Load(page)).arr) == {}
  {
    var t := Next(server, channel, w, Load(page));
    assert forall i :: 0 <= i < |page| ==> t.arr[i] == Confirm(server(page[i])) && t.arr[i].message.id == page[i];
    assert forall i :: 0 <= i < |page| ==> page[i] in ConfirmedIds(t.arr);
  }

  lemma StepKeeps(server: Id -> Message, channel: Id, w: World, op: Op)
    requires Inv(server, w) && Enabled(w, op)
    ensures Inv(server, Next(server, channel, w, op))
  {
    match op
    case Send(_, _, _, _) => SendKeeps(server, channel, w, op);
    case Ack(l, id) => AckKeeps(server, channel, w, l, id);
    case Fail(l) => FailKeeps(server, channel, w, l);
    case Announce(id) => AnnounceKeeps(server, channel, w, id);
    case Delete(id) => DeleteKeeps(server, channel, w, id);
    case Load(page) => LoadKeeps(server, channel, w, page);
  }

  lemma {:induction false} RunKeeps(server: Id -> Message, channel: Id, w: World, ops: seq<Op>)
    requires Inv(server, w) && Runs(server, channel, w, ops)
    ensures Inv(server, After(server, channel, w, ops))
    decreases |ops|
  {
    if ops != [] {
      StepKeeps(server, channel, w, ops[0]);
      RunKeeps(server, channel, Next(server, channel, w, ops[0]), ops[1..]);
    }
  }

  // ---- main results ----

  // In every run each server message the list owes the user is one confirmed row,
  // with the server's content, and no other row is confirmed.
  lemma OneRowPerMessage(server: Id -> Message, channel: Id, ops: seq<Op>, id: Id)
    requires IsServer(server) && Runs(server, channel, START, ops)
    ensures var w := After(server, channel, START, ops);
            && (id in w.seen <==> exists i :: 0 <= i < |w.arr| && w.arr[i] == Confirm(server(id)))
            && (forall i, j :: 0 <= i < |w.arr| && 0 <= j < |w.arr| && w.arr[i] == w.arr[j] == Confirm(server(id)) ==>
                  i == j)
            && (forall e <- w.arr :: e.localId.None? ==> e.message.id in w.seen && e == Confirm(server(e.message.id)))
  {
    assert Inv(server, START);
    RunKeeps(server, channel, START, ops);
    var w := After(server, channel, START, ops);
    if id in w.seen {
      var i :| 0 <= i < |w.arr| && w.arr[i].localId.None? && w.arr[i].message.id == id;
      assert w.arr[i] in w.arr && RowOk(server, w.sends, w.arr[i]);
    }
    forall e | e in w.arr && e.localId.None? ensures e.message.id in w.seen && e == Confirm(server(e.message.id)) {
      var i :| 0 <= i < |w.arr| && w.arr[i] == e;
      assert RowOk(server, w.sends, e) && e.message.id in ConfirmedIds(w.arr);
    }
    forall i, j | 0 <= i < j < |w.arr| ensures w.arr[i] != w.arr[j] {
      assert Key(w.arr[i]) != Key(w.arr[j]);
    }
  }

  ghost predicate AllAcked(w: World) {
    forall l <- w.sends :: w.sends[l] == Acked
  }

  lemma {:induction false} RowsOnce(arr: seq<Entry>, e: Entry)
    requires forall i, j :: 0 <= i < j < |arr| ==> arr[i] != arr[j]
    ensures multiset(arr)[e] == if e in arr then 1 else 0
  {
    if arr != [] {
      var n := |arr| - 1;
      RowsOnce(arr[..n], e);
      assert arr == arr[..n] + [arr[n]];
    }
  }

  // Once every send is acked the list is the seen messages, one confirmed row each: the
  // interleaving shows in the order of the rows only.
  lemma AckedListConverges(server: Id -> Message, channel: Id, ops: seq<Op>)
    requires IsServer(server) && Runs(server, channel, START, ops) && AllAcked(After(server, channel, START, ops))
    ensures var w := After(server, channel, START, ops);
            multiset(w.arr) == multiset(set id | id in w.seen :: Confirm(server(id)))
  {
    assert Inv(server, START);
    RunKeeps(server, channel, START, ops);
    var w := After(server, channel, START, ops);
    var rows := set id | id in w.seen :: Confirm(server(id));
    forall i, j | 0 <= i < j < |w.arr| ensures w.arr[i] != w.arr[j] {
      assert Key(w.arr[i]) != Key(w.arr[j]);
    }
    forall e ensures e in w.arr <==> e in rows {
      if e in w.arr {
        assert RowOk(server, w.sends, e);
        var i :| 0 <= i < |w.arr| && w.arr[i] == e;
        assert e.message.id in ConfirmedIds(w.arr);
      }
      if e in rows {
        var id :| id in w.seen && e == Confirm(server(id));
        var i :| 0 <= i < |w.arr| && w.arr[i].localId.None? && w.arr[i].message.id == id;
        assert w.arr[i] in w.arr && RowOk(server, w.sends, w.arr[i]);
      }
    }
    forall e ensures multiset(w.arr)[e] == multiset(rows)[e] {
      RowsOnce(w.arr, e);
    }
  }

  // ---- a failed send and its row ----

  predicate ShowsFailed(w: World, l: Id) {
    exists i :: 0 <= i < |w.arr| && w.arr[i].localId == Some(l) && w.arr[i].state == Failed
  }

  // A failed send keeps a failed row for retry exactly when its optimistic row is still there.
  lemma FailShowsIff(server: Id -> Message, channel: Id, w: World, l: Id)
    requires Inv(server, w) && Enabled(w, Fail(l))
    ensures ShowsFailed(Next(server, channel, w, Fail(l)), l) <==> l in LocalIds(w.arr)
  {
    var t := Next(server, channel, w, Fail(l));
    MarkKeys(w.arr, l, Failed);
    var k := FirstLocal(w.arr, l);
    if l in LocalIds(w.arr) {
      assert t.arr[k].localId == Some(l) && t.arr[k].state == Failed;
    }
    if ShowsFailed(t, l) {
      var i :| 0 <= i < |t.arr| && t.arr[i].localId == Some(l) && t.arr[i].state == Failed;
      assert l in LocalIds(t.arr);
    }
  }

  // A send loses its optimistic row exactly to its own ack, to a reload, or to a new server
  // id whose first author-and-body match is that row.
  lemma RowConsumedIff(server: Id -> Message, channel: Id, w: World, l: Id, op: Op)
    requires Inv(server, w) && Enabled(w, op) && l in LocalIds(w.arr)
    ensures l !in LocalIds(Next(server, channel, w, op).arr) <==>
            op.Load? || (op.Ack? && op.localId == l) ||
            (op.Announce? && op.serverId !in w.seen && FirstMatch(w.arr, server(op.serverId)) == FirstLocal(w.arr, l))
  {
    var k := FirstLocal(w.arr, l);
    match op
    case Send(_, _, _, _) =>
      LocalsAreSends(server, w);
      PushKeys(w.arr, Optimistic(op.localId, channel, op.author, op.body, op.at));
    case Ack(l', id) => AckList(server, w, l', id);
    case Fail(l') => MarkKeys(w.arr, l', Failed);
    case Announce(id) =>
      HasConfirmedIff(w.arr, id);
      var m := FirstMatch(w.arr, server(id));
      if id !in w.seen {
        ConfirmKeeps(server, w.arr, m, id);
        assert m < |w.arr| && m != k ==> Key(w.arr[m]) != Key(w.arr[k]);
      }
    case Delete(id) =>
      DeleteKeeps(server, channel, w, id);
      var i :| 0 <= i < |Removed(w.arr, id)| && Removed(w.arr, id)[i] == w.arr[k];
    case Load(page) => LoadKeeps(server, channel, w, page);
  }

  // A deletion delivered twice, in any state a run can reach, is delivered once.
  lemma DeleteTwice(server: Id -> Message, channel: Id, w: World, id: Id)
    requires Inv(server, w) && Enabled(w, Delete(id))
    ensures Next(server, channel, Next(server, channel, w, Delete(id)), Delete(id)) == Next(server, channel, w,
            Delete(id))
  {
    forall i, j | 0 <= i < j < |w.arr| ensures !(w.arr[i].message.id == id && w.arr[j].message.id == id) {
      assert RowOk(server, w.sends, w.arr[i]) && RowOk(server, w.sends, w.arr[j]);
      assert Key(w.arr[i]) != Key(w.arr[j]);
    }
    RemoveTwiceIff(w.arr, id);
  }

  lemma NoLocal(arr: seq<Entry>, l: Id)
    ensures l in LocalIds(arr) <==> FirstLocal(arr, l) < |arr|
  {
    if l in LocalIds(arr) {
      var i :| 0 <= i < |arr| && arr[i].localId == Some(l);
    }
  }

  // A reload forgets the sends in flight: a failure after it leaves no row to retry, and an
  // ack adds the message unless the page had it.
  lemma LoadForgetsSends(server: Id -> Message, channel: Id, w: World, page: seq<Id>, l: Id, id: Id)
    requires Inv(server, w) && Enabled(w, Load(page)) && Enabled(w, Ack(l, id))
    ensures var v := Next(server, channel, w, Load(page));
            && |v.arr| == |page| && (forall i :: 0 <= i < |page| ==> v.arr[i] == Confirm(server(page[i])))
            && !ShowsFailed(Next(server, channel, v, Fail(l)), l)
            && Next(server, channel, v, Ack(l, id)).arr == if id in page then v.arr else v.arr + [Confirm(server(id))]
  {
    var v := Next(server, channel, w, Load(page));
    LoadKeeps(server, channel, w, page);
    FailShowsIff(server, channel, v, l);
    HasConfirmedIff(v.arr, id);
    assert id in v.seen <==> id in page;
    NoLocal(v.arr, l);
  }

  lemma Unfold(server: Id -> Message, channel: Id, w: World, op: Op, rest: seq<Op>)
    requires Enabled(w, op)
    ensures Runs(server, channel, w, [op] + rest) <==> Runs(server, channel, Next(server, channel, w, op), rest)
    ensures After(server, channel, w, [op] + rest) == After(server, channel, Next(server, channel, w, op), rest)
  {
    assert ([op] + rest)[1..] == rest;
  }

  lemma SecondAckDropsOwnRow(server: Id -> Message, first: Entry, second: Entry, b: Id, m: Id)
    requires IsServer(server) && first == Confirm(server(m)) && second.localId == Some(b)
    ensures Promoted([first, second], b, server(m)) == [first]
  {
    assert [first, second][0].message.id == m;
    assert FirstLocal([first, second], b) == 1;
  }

  // Two identical sends: realtime promotes the first row for the second one's message, so
  // when the first POST then fails no failed row is left to retry.
  lemma FailedSendCanVanish(server: Id -> Message, channel: Id, a: Id, b: Id, m: Id)
    requires IsServer(server) && a != b
    ensures var author, body := server(m).author, server(m).body;
            var ops := [Send(a, author, body, 1)]
                + ([Send(b, author, body, 2)] + ([Announce(m)] + ([Ack(b, m)] + ([Fail(a)] + []))));
            var w := After(server, channel, START, ops);
            && Runs(server, channel, START, ops)
            && a in w.sends && w.sends[a] == Rejected && !ShowsFailed(w, a) && w.arr == [Confirm(server(m))]
  {
    var author, body := server(m).author, server(m).body;
    var e1, e2, c := Optimistic(a, channel, author, body, 1), Optimistic(b, channel, author, body, 2),
        Confirm(server(m));
    var w1 := World([e1], map[a := Waiting], {});
    var w2 := World([e1, e2], map[a := Waiting, b := Waiting], {});
    var w3 := World([c, e2], w2.sends, {m});
    var w4 := World([c], w3.sends[b := Acked], {m});
    var w5 := World([c], w4.sends[a := Rejected], {m});
    assert Next(server, channel, START, Send(a, author, body, 1)) == w1;
    assert Next(server, channel, w1, Send(b, author, body, 2)) == w2;
    assert FirstMatch([e1, e2], server(m)) == 0;
    assert Next(server, channel, w2, Announce(m)) == w3;
    SecondAckDropsOwnRow(server, c, e2, b, m);
    assert Next(server, channel, w3, Ack(b, m)) == w4;
    assert Marked([c], a, Failed) == [c];
    assert Next(server, channel, w4, Fail(a)) == w5;
    hide Next, Runs, After;
    Unfold(server, channel, w4, Fail(a), []);
    Unfold(server, channel, w3, Ack(b, m), [Fail(a)] + []);
    Unfold(server, channel, w2, Announce(m), [Ack(b, m)] + ([Fail(a)] + []));
    Unfold(server, channel, w1, Send(b, author, body, 2), [Announce(m)] + ([Ack(b, m)] + ([Fail(a)] + [])));
    Unfold(server, channel, START, Send(a, author, body, 1), [Send(b, author, body, 2)]
        + ([Announce(m)] + ([Ack(b, m)] + ([Fail(a)] + []))));
    RunEmpty(server, channel, w5);
  }

  lemma RunEmpty(server: Id -> Message, channel: Id, w: World)
    ensures Runs(server, channel, w, []) && After(server, channel, w, []) == w
  {
  }
}
