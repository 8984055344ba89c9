// The iOS channel reducers: optimistic append, history merge and realtime events over a
// list kept in time order.
module ChatSession {

  import opened Options

  datatype Id = Id(text: string)
  datatype Text = Text(chars: string)

  datatype Status = Pending | Sent | Failed

  // createdAt is the parsed time; a null author is a system post.
  datatype Message = Message(id: Id, author: Option<Id>, body: Text, createdAt: int, status: Status,
      localId: Option<Id>)

  datatype ServerMessage = ServerMessage(id: Id, author: Option<Id>, body: Text, createdAt: int)

  datatype Event =
    | Created(channel: Id, message: ServerMessage)
    | Deleted(channel: Id, messageId: Id)
    | Other(channel: Id)

  datatype Channel = Channel(id: Id, messages: seq<Message>)

  // ---- stable sort by time ----

  function Insert(s: seq<Message>, m: Message): seq<Message> {
    if s == [] || s[|s| - 1].createdAt <= m.createdAt then s + [m]
    else Insert(s[..|s| - 1], m) + [s[|s| - 1]]
  }

  function Sorted(s: seq<Message>): seq<Message> {
    if s == [] then [] else Insert(Sorted(s[..|s| - 1]), s[|s| - 1])
  }

  predicate InOrder(s: seq<Message>) {
    forall i, j :: 0 <= i < j < |s| ==> s[i].createdAt <= s[j].createdAt
  }

  function AtTime(s: seq<Message>, t: int): seq<Message> {
    if s == [] then []
    else AtTime(s[..|s| - 1], t) + if s[|s| - 1].createdAt == t then [s[|s| - 1]] else []
  }

  lemma {:induction false} AtTimeLate(s: seq<Message>, t: int)
    requires InOrder(s) && (s != [] ==> s[|s| - 1].createdAt < t)
    ensures AtTime(s, t) == []
  {
    if s != [] {
      AtTimeLate(s[..|s| - 1], t);
    }
  }

  lemma {:induction false} InsertMembers(s: seq<Message>, m: Message)
    ensures multiset(Insert(s, m)) == multiset(s) + multiset{m} && |Insert(s, m)| == |s| + 1
    ensures forall x :: x in Insert(s, m) <==> x in s || x == m
  {
    if s == [] || s[|s| - 1].createdAt <= m.createdAt {
    } else {
      var n := |s| - 1;
      InsertMembers(s[..n], m);
      assert s == s[..n] + [s[n]];
    }
  }

  lemma PushOrder(s: seq<Message>, m: Message)
    requires InOrder(s) && forall x <- s :: x.createdAt <= m.createdAt
    ensures InOrder(s + [m])
  {
  }

  lemma {:induction false} InsertOrder(s: seq<Message>, m: Message)
    requires InOrder(s)
    ensures InOrder(Insert(s, m))
  {
    if s == [] || s[|s| - 1].createdAt <= m.createdAt {
      PushOrder(s, m);
    } else {
      var n := |s| - 1;
      InsertOrder(s[..n], m);
      InsertMembers(s[..n], m);
      PushOrder(Insert(s[..n], m), s[n]);
    }
  }

  lemma {:induction false} InsertStable(s: seq<Message>, m: Message, t: int)
    ensures AtTime(Insert(s, m), t) == AtTime(s + [m], t)
  {
    assert (s + [m])[..|s|] == s;
    if s == [] || s[|s| - 1].createdAt <= m.createdAt {
    } else {
      var n := |s| - 1;
      InsertStable(s[..n], m, t);
      assert (s[..n] + [m])[..n] == s[..n];
      assert (Insert(s[..n], m) + [s[n]])[..|Insert(s[..n], m)|] == Insert(s[..n], m);
    }
  }

  // In time order, the same messages, and ties in their old order.
  lemma {:induction false} SortedFacts(s: seq<Message>)
    ensures InOrder(Sorted(s)) && multiset(Sorted(s)) == multiset(s) && |Sorted(s)| == |s|
    ensures forall t :: AtTime(Sorted(s), t) == AtTime(s, t)
  {
    if s != [] {
      var n := |s| - 1;
      SortedFacts(s[..n]);
      InsertOrder(Sorted(s[..n]), s[n]);
      InsertMembers(Sorted(s[..n]), s[n]);
      assert s == s[..n] + [s[n]];
      forall t ensures AtTime(Sorted(s), t) == AtTime(s, t) {
        InsertStable(Sorted(s[..n]), s[n], t);
        var x := Sorted(s[..n]) + [s[n]];
        assert x[..|x| - 1] == Sorted(s[..n]);
      }
    }
  }

  lemma {:induction false} SortedAlready(s: seq<Message>)
    requires InOrder(s)
    ensures Sorted(s) == s
  {
    if s != [] {
      var n := |s| - 1;
      SortedAlready(s[..n]);
      assert s == s[..n] + [s[n]];
    }
  }

  // ---- reducers ----

  function Ids(s: seq<Message>): set<Id> {
    set i | 0 <= i < |s| :: s[i].id
  }

  function FromServer(m: ServerMessage): Message {
    Message(m.id, m.author, m.body, m.createdAt, Sent, None)
  }

  function Merged(messages: seq<Message>, history: seq<ServerMessage>): seq<Message> {
    if history == [] then messages
    else
      var before := Merged(messages, history[..|history| - 1]);
      var m := history[|history| - 1];
      if m.id in Ids(before) then before else before + [FromServer(m)]
  }

  function LoadHistory(c: Channel, history: seq<ServerMessage>): Channel {
    c.(messages := Sorted(Merged(c.messages, history)))
  }

  method LoadHistoryOf(c: Channel, history: seq<ServerMessage>) returns (r: Channel)
    ensures r == LoadHistory(c, history)
  {
    var seen := Ids(c.messages);
    var merged := c.messages;
    for i := 0 to |history|
      invariant merged == Merged(c.messages, history[..i]) && seen == Ids(merged)
    {
      assert history[..i + 1][..i] == history[..i];
      var m := history[i];
      if m.id in seen {
        continue;
      }
      PushId(merged, FromServer(m));
      seen := seen + {m.id};
      merged := merged + [FromServer(m)];
    }
    assert history[..|history|] == history;
    r := c.(messages := Sorted(merged));
  }

  function AppendOptimistic(c: Channel, localId: Id, author: Id, body: Text, at: int): Channel {
    c.(messages := Sorted(c.messages + [Message(localId, Some(author), body, at, Pending, Some(localId))]))
  }

  function FailOne(m: Message, localId: Id): Message {
    if m.localId == Some(localId) && m.status == Pending then m.(status := Failed) else m
  }

  function MarkFailed(c: Channel, localId: Id): Channel {
    c.(messages := seq(|c.messages|, i requires 0 <= i < |c.messages| => FailOne(c.messages[i], localId)))
  }

  predicate Matches(m: Message, e: ServerMessage) {
    m.status == Pending && m.author == e.author && m.body == e.body
  }

  // First pending message the event can confirm; the length means none.
  function FirstMatch(s: seq<Message>, e: ServerMessage): (k: nat)
    ensures k <= |s| && (k < |s| ==> Matches(s[k], e))
    ensures forall i :: 0 <= i < k ==> !Matches(s[i], e)
  {
    if s == [] || Matches(s[0], e) then 0 else 1 + FirstMatch(s[1..], e)
  }

  function Without(s: seq<Message>, id: Id): seq<Message> {
    if s == [] then []
    else Without(s[..|s| - 1], id) + if s[|s| - 1].id != id then [s[|s| - 1]] else []
  }

  function Confirmed(m: Message, e: ServerMessage): Message {
    m.(id := e.id, createdAt := e.createdAt, status := Sent, localId := None)
  }

  function Apply(c: Channel, ev: Event): Channel {
    if ev.channel != c.id then c
    else
      match ev
      case Created(_, e) =>
        if e.id in Ids(c.messages) then c
        else
          var k := FirstMatch(c.messages, e);
          if k < |c.messages| then c.(messages := Sorted(c.messages[k := Confirmed(c.messages[k], e)]))
          else c.(messages := Sorted(c.messages + [FromServer(e)]))
      case Deleted(_, id) => c.(messages := Without(c.messages, id))
      case Other(_) => c
  }

  // The session keeps the last committed state.
  class Session {
    var state: Channel
    const selfId: Id

    ghost predicate Valid()
      reads this
    {
      Tidy(state)
    }

    constructor (channel: Id, selfId: Id)
      ensures Valid() && state == Channel(channel, []) && this.selfId == selfId
    {
      state := Channel(channel, []);
      this.selfId := selfId;
    }

    // A second delivery of the same event has nothing left to do.
    method OnEvent(ev: Event)
      requires Valid()
      modifies this
      ensures Valid() && state == Apply(old(state), ev)
      ensures Apply(state, ev) == state
    {
      OpKeepsTidy(state, Receive(ev));
      EventIdempotent(state, ev);
      state := Apply(state, ev);
    }

    method Load(history: seq<ServerMessage>)
      requires Valid()
      modifies this
      ensures Valid() && state == LoadHistory(old(state), history)
    {
      OpKeepsTidy(state, Op.Load(history));
      state := LoadHistoryOf(state, history);
    }

    // Append first, transmit second; a socket that throws turns the message to failed. Either
    // way the list gains exactly that one message.
    method Send(body: Text, localId: Id, at: int, socketOpen: bool)
      requires Valid() && localId !in Ids(state.messages)
      modifies this
      ensures Valid()
      ensures var sent := AppendOptimistic(old(state), localId, selfId, body, at);
              state == if socketOpen then sent else MarkFailed(sent, localId)
      ensures var m := Message(localId, Some(selfId), body, at, if socketOpen then Pending else Failed, Some(localId));
              multiset(state.messages) == multiset(old(state.messages)) + multiset{m}
    {
      SendEffect(state, localId, selfId, body, at);
      OpKeepsTidy(state, Append(localId, selfId, body, at));
      state := AppendOptimistic(state, localId, selfId, body, at);
      if !socketOpen {
        OpKeepsTidy(state, Fail(localId));
        state := MarkFailed(state, localId);
      }
    }
  }

  // ---- ids ----

  ghost predicate DistinctIds(s: seq<Message>) {
    forall i, j :: 0 <= i < j < |s| ==> s[i].id != s[j].id
  }

  lemma PushId(s: seq<Message>, m: Message)
    ensures Ids(s + [m]) == Ids(s) + {m.id}
  {
    var b := s + [m];
    assert b[|s|] == m;
    forall id | id in Ids(s) ensures id in Ids(b) {
      var i :| 0 <= i < |s| && s[i].id == id;
      assert b[i] == s[i];
    }
  }

  lemma {:induction false} InsertIds(s: seq<Message>, m: Message)
    ensures Ids(Insert(s, m)) == Ids(s) + {m.id}
    ensures DistinctIds(s) && m.id !in Ids(s) ==> DistinctIds(Insert(s, m))
  {
    if s == [] || s[|s| - 1].createdAt <= m.createdAt {
      PushId(s, m);
      PushDistinct(s, m);
    } else {
      var n := |s| - 1;
      InsertIds(s[..n], m);
      PushId(s[..n], s[n]);
      PushId(Insert(s[..n], m), s[n]);
      assert s == s[..n] + [s[n]];
      if DistinctIds(s) && m.id !in Ids(s) {
        assert s[n].id !in Ids(s[..n]);
        PushDistinct(Insert(s[..n], m), s[n]);
      }
    }
  }

  lemma PushDistinct(s: seq<Message>, m: Message)
    ensures m.id !in Ids(s) && DistinctIds(s) ==> DistinctIds(s + [m])
  {
    if m.id !in Ids(s) {
      forall i | 0 <= i < |s| ensures s[i].id != m.id {
        assert s[i].id in Ids(s);
      }
    }
  }

  lemma {:induction false} SortedIds(s: seq<Message>)
    ensures Ids(Sorted(s)) == Ids(s)
    ensures DistinctIds(s) ==> DistinctIds(Sorted(s))
  {
    if s != [] {
      var n := |s| - 1;
      SortedIds(s[..n]);
      InsertIds(Sorted(s[..n]), s[n]);
      PushId(s[..n], s[n]);
      assert s == s[..n] + [s[n]];
      assert DistinctIds(s) ==> s[n].id !in Ids(s[..n]);
    }
  }

  lemma {:induction false} WithoutMembers(s: seq<Message>, id: Id)
    ensures forall x :: x in Without(s, id) <==> x in s && x.id != id
  {
    if s != [] {
      var n := |s| - 1;
      WithoutMembers(s[..n], id);
      assert s == s[..n] + [s[n]];
    }
  }

  lemma TidyPrefix(s: seq<Message>)
    requires s != []
    ensures InOrder(s) ==> InOrder(s[..|s| - 1]) && forall x <- s[..|s| - 1] :: x.createdAt <= s[|s| - 1].createdAt
    ensures DistinctIds(s) ==> DistinctIds(s[..|s| - 1]) && forall x <- s[..|s| - 1] :: x.id != s[|s| - 1].id
  {
  }

  lemma PushOther(s: seq<Message>, m: Message)
    requires DistinctIds(s) && forall x <- s :: x.id != m.id
    ensures DistinctIds(s + [m])
  {
  }

  lemma {:induction false} WithoutFacts(s: seq<Message>, id: Id)
    ensures InOrder(s) ==> InOrder(Without(s, id))
    ensures DistinctIds(s) ==> DistinctIds(Without(s, id))
    ensures forall x :: x in Without(s, id) <==> x in s && x.id != id
  {
    WithoutMembers(s, id);
    if s != [] {
      var n := |s| - 1;
      WithoutFacts(s[..n], id);
      TidyPrefix(s);
      var w := Without(s[..n], id);
      assert Without(s, id) == if s[n].id != id then w + [s[n]] else w;
      hide InOrder, DistinctIds, Without;
      if InOrder(s) {
        PushOrder(w, s[n]);
      }
      if DistinctIds(s) {
        PushOther(w, s[n]);
      }
    }
  }

  lemma {:induction false} WithoutAbsent(s: seq<Message>, id: Id)
    requires forall x <- s :: x.id != id
    ensures Without(s, id) == s
  {
    if s != [] {
      var n := |s| - 1;
      WithoutAbsent(s[..n], id);
      assert s == s[..n] + [s[n]];
    }
  }

  // ---- what every operation keeps ----

  datatype Op =
    | Load(history: seq<ServerMessage>)
    | Append(localId: Id, author: Id, body: Text, at: int)
    | Fail(localId: Id)
    | Receive(ev: Event)

  function Next(c: Channel, op: Op): Channel {
    match op
    case Load(history) => LoadHistory(c, history)
    case Append(l, author, body, at) => AppendOptimistic(c, l, author, body, at)
    case Fail(l) => MarkFailed(c, l)
    case Receive(ev) => Apply(c, ev)
  }

  // A fresh local id is the only thing the reducers ask of their caller.
  predicate Enabled(c: Channel, op: Op) {
    op.Append? ==> op.localId !in Ids(c.messages)
  }

  // Until it is confirmed a message goes by its local id.
  predicate Own(m: Message) {
    m.localId.Some? ==> m.id == m.localId.value
  }

  ghost predicate Tidy(c: Channel) {
    InOrder(c.messages) && DistinctIds(c.messages) && forall m <- c.messages :: Own(m)
  }

  lemma SortedOwn(s: seq<Message>)
    requires forall m <- s :: Own(m)
    ensures forall m <- Sorted(s) :: Own(m)
  {
    forall m | m in Sorted(s) ensures Own(m) {
      SortedKeepsRow(s, m);
    }
  }

  lemma {:induction false} MergedOwn(messages: seq<Message>, history: seq<ServerMessage>)
    requires forall m <- messages :: Own(m)
    ensures forall m <- Merged(messages, history) :: Own(m)
  {
    if history != [] {
      MergedOwn(messages, history[..|history| - 1]);
    }
  }

  // A send adds its one message, pending; when transmitting fails that one turns to failed.
  lemma SendEffect(c: Channel, l: Id, author: Id, body: Text, at: int)
    requires Tidy(c) && l !in Ids(c.messages)
    ensures var m := Message(l, Some(author), body, at, Pending, Some(l));
            var sent := AppendOptimistic(c, l, author, body, at);
            && multiset(sent.messages) == multiset(c.messages) + multiset{m}
            && multiset(MarkFailed(sent, l).messages) == multiset(c.messages) + multiset{m.(status := Failed)}
  {
    var m := Message(l, Some(author), body, at, Pending, Some(l));
    var sent := AppendOptimistic(c, l, author, body, at);
    SortedFacts(c.messages + [m]);
    SortedKeepsRow(c.messages + [m], m);
    OpKeepsTidy(c, Append(l, author, body, at));
    FailsOne(sent, m);
  }

  lemma FailsOne(c: Channel, m: Message)
    requires Tidy(c) && m in c.messages && m.status.Pending? && m.localId.Some?
    ensures multiset(MarkFailed(c, m.localId.value).messages) == multiset(c.messages) - multiset{m}
            + multiset{m.(status := Failed)}
  {
    var s := c.messages;
    var k :| 0 <= k < |s| && s[k] == m;
    forall i | 0 <= i < |s| && i != k ensures FailOne(s[i], m.localId.value) == s[i] {
      assert s[i].id != s[k].id && Own(s[i]) && Own(s[k]);
    }
    assert MarkFailed(c, m.localId.value).messages == s[k := m.(status := Failed)];
  }

  lemma {:induction false} MergedIds(messages: seq<Message>, history: seq<ServerMessage>)
    requires DistinctIds(messages)
    ensures DistinctIds(Merged(messages, history)) && messages <= Merged(messages, history)
  {
    if history != [] {
      var n := |history| - 1;
      MergedIds(messages, history[..n]);
      PushDistinct(Merged(messages, history[..n]), FromServer(history[n]));
    }
  }

  lemma ConfirmIds(s: seq<Message>, k: nat, e: ServerMessage)
    requires k < |s| && DistinctIds(s) && e.id !in Ids(s)
    ensures DistinctIds(s[k := Confirmed(s[k], e)])
    ensures e.id in Ids(s[k := Confirmed(s[k], e)])
  {
    var b := s[k := Confirmed(s[k], e)];
    assert b[k].id == e.id;
    forall i | 0 <= i < |s| ensures s[i].id != e.id {
      assert s[i].id in Ids(s);
    }
  }

  lemma FailKeepsTidy(c: Channel, l: Id)
    requires Tidy(c)
    ensures Tidy(MarkFailed(c, l))
  {
    var b := MarkFailed(c, l).messages;
    forall i | 0 <= i < |b| ensures Own(b[i]) && b[i].id == c.messages[i].id {
      assert Own(c.messages[i]);
    }
  }

  lemma OpKeepsTidy(c: Channel, op: Op)
    requires Tidy(c) && Enabled(c, op)
    ensures Tidy(Next(c, op))
  {
    match op
    case Load(history) =>
      MergedIds(c.messages, history);
      MergedOwn(c.messages, history);
      SortedOwn(Merged(c.messages, history));
      SortedFacts(Merged(c.messages, history));
      SortedIds(Merged(c.messages, history));
    case Append(l, author, body, at) =>
      var m := Message(l, Some(author), body, at, Pending, Some(l));
      PushDistinct(c.messages, m);
      SortedOwn(c.messages + [m]);
      SortedFacts(c.messages + [m]);
      SortedIds(c.messages + [m]);
    case Fail(l) => FailKeepsTidy(c, l);
    case Receive(ev) => EventKeepsTidy(c, ev);
  }

  lemma EventKeepsTidy(c: Channel, ev: Event)
    requires Tidy(c)
    ensures Tidy(Apply(c, ev))
  {
    match ev
    case Created(_, e) =>
      if e.id !in Ids(c.messages) {
        var k := FirstMatch(c.messages, e);
        var next := if k < |c.messages| then c.messages[k := Confirmed(c.messages[k], e)]
            else c.messages + [FromServer(e)];
        if k < |c.messages| {
          ConfirmIds(c.messages, k, e);
        } else {
          PushDistinct(c.messages, FromServer(e));
        }
        SortedOwn(next);
        SortedFacts(next);
        SortedIds(next);
      }
    case Deleted(_, id) => WithoutFacts(c.messages, id);
    case Other(_) =>
  }

  ghost predicate Runs(c: Channel, ops: seq<Op>)
    decreases |ops|
  {
    ops == [] || (Enabled(c, ops[0]) && Runs(Next(c, ops[0]), ops[1..]))
  }

  ghost function After(c: Channel, ops: seq<Op>): Channel
    decreases |ops|
  {
    if ops == [] then c else After(Next(c, ops[0]), ops[1..])
  }

  // From an empty channel every sequence of operations keeps the list in time order with
  // distinct ids.
  lemma {:induction false} RunsStayTidy(c: Channel, ops: seq<Op>)
    requires Tidy(c) && Runs(c, ops)
    ensures Tidy(After(c, ops))
    decreases |ops|
  {
    if ops != [] {
      OpKeepsTidy(c, ops[0]);
      RunsStayTidy(Next(c, ops[0]), ops[1..]);
    }
  }

  // ---- realtime events ----

  // Delivering an event twice is delivering it once.
  lemma EventIdempotent(c: Channel, ev: Event)
    ensures Apply(Apply(c, ev), ev) == Apply(c, ev)
  {
    if ev.channel == c.id {
      match ev
      case Created(_, e) =>
        if e.id !in Ids(c.messages) {
          var k := FirstMatch(c.messages, e);
          if k < |c.messages| {
            var next := c.messages[k := Confirmed(c.messages[k], e)];
            assert next[k].id == e.id;
            SortedIds(next);
          } else {
            PushId(c.messages, FromServer(e));
            SortedIds(c.messages + [FromServer(e)]);
          }
        }
      case Deleted(_, id) =>
        WithoutFacts(c.messages, id);
        WithoutAbsent(Without(c.messages, id), id);
      case Other(_) =>
    }
  }

  // A created event changes nothing exactly when its id is already there; otherwise it
  // turns the first matching pending message into the server's, or adds one message.
  lemma CreatedEffect(c: Channel, e: ServerMessage)
    requires Tidy(c)
    ensures var d := Apply(c, Created(c.id, e));
            var k := FirstMatch(c.messages, e);
            && (d == c <==> e.id in Ids(c.messages))
            && (e.id !in Ids(c.messages) && k < |c.messages| ==>
                  multiset(d.messages) == multiset(c.messages) - multiset{c.messages[k]}
                      + multiset{Confirmed(c.messages[k], e)})
            && (e.id !in Ids(c.messages) && k == |c.messages|
                ==> multiset(d.messages) == multiset(c.messages) + multiset{FromServer(e)})
  {
    var s, k := c.messages, FirstMatch(c.messages, e);
    if e.id !in Ids(s) {
      var next := if k < |s| then s[k := Confirmed(s[k], e)] else s + [FromServer(e)];
      SortedFacts(next);
      SortedIds(next);
      if k < |s| {
        assert next[k].id == e.id;
      } else {
        PushId(s, FromServer(e));
      }
      assert e.id in Ids(next);
      hide Sorted, AtTime, FirstMatch;
    }
  }

  // Row k is the first pending message with e's author and body; the length means there is none.
  predicate FirstPending(s: seq<Message>, e: ServerMessage, k: nat) {
    && k <= |s|
    && (k < |s| ==> s[k].status == Pending && s[k].author == e.author && s[k].body == e.body)
    && forall j :: 0 <= j < k ==> s[j].status != Pending || s[j].author != e.author || s[j].body != e.body
  }

  // A created event with a new id adds the server's message, as sent; the first pending message
  // with its author and body, if there is one, gives way to it, and nothing else does.
  lemma CreatedAdds(c: Channel, e: ServerMessage, k: nat)
    requires e.id !in Ids(c.messages) && FirstPending(c.messages, e, k)
    ensures multiset(Apply(c, Created(c.id, e)).messages) ==
            multiset(c.messages) - (if k < |c.messages| then multiset{c.messages[k]} else multiset{})
            + multiset{Message(e.id, e.author, e.body, e.createdAt, Sent, None)}
  {
    var s := c.messages;
    assert k == FirstMatch(s, e) by {
      assert FirstMatch(s, e) < |s| ==> Matches(s[FirstMatch(s, e)], e);
    }
    CreatedList(c, e);
    hide FirstPending, FirstMatch, Ids, Sorted, Apply;
    if k < |s| {
      SortedFacts(s[k := Confirmed(s[k], e)]);
    } else {
      SortedFacts(s + [FromServer(e)]);
    }
  }

  lemma CreatedList(c: Channel, e: ServerMessage)
    requires e.id !in Ids(c.messages)
    ensures var k := FirstMatch(c.messages, e);
            && (k < |c.messages| ==>
                  && Apply(c, Created(c.id, e)).messages == Sorted(c.messages[k := Confirmed(c.messages[k], e)])
                  && Confirmed(c.messages[k], e) == Message(e.id, e.author, e.body, e.createdAt, Sent, None))
            && (k == |c.messages| ==> Apply(c, Created(c.id, e)).messages == Sorted(c.messages + [FromServer(e)]))
  {
    hide Sorted, Ids;
  }

  // A failed send turns its pending message to failed, in place; nothing else changes, not even
  // a message of that local id that is not pending any more.
  lemma FailTells(c: Channel, l: Id, i: nat)
    requires i < |c.messages|
    ensures var d, m := MarkFailed(c, l), c.messages[i];
            && d.id == c.id && |d.messages| == |c.messages|
            && d.messages[i] == if m.localId == Some(l) && m.status == Pending
                                then Message(m.id, m.author, m.body, m.createdAt, Failed, Some(l)) else m
  {
  }

  // m is history entry i, the first of its id, and no message present goes by that id.
  predicate NewIn(messages: seq<Message>, history: seq<ServerMessage>, i: nat, m: Message)
    requires i < |history|
  {
    var e := history[i];
    && m == Message(e.id, e.author, e.body, e.createdAt, Sent, None)
    && (forall x <- messages :: x.id != e.id) && forall j :: 0 <= j < i ==> history[j].id != e.id
  }

  lemma IdsMembers(s: seq<Message>, id: Id)
    ensures id in Ids(s) <==> exists x <- s :: x.id == id
  {
    if id in Ids(s) {
      var i :| 0 <= i < |s| && s[i].id == id;
      assert s[i] in s;
    }
  }

  lemma NewInPush(messages: seq<Message>, history: seq<ServerMessage>, e: ServerMessage, i: nat, m: Message)
    requires i < |history|
    ensures NewIn(messages, history + [e], i, m) <==> NewIn(messages, history, i, m)
  {
    assert forall j :: 0 <= j < |history| ==> (history + [e])[j] == history[j];
  }

  // A history load keeps every message that is there and adds, as sent, the first entry of
  // every id that is not; nothing else.
  lemma {:induction false} MergedMembers(messages: seq<Message>, history: seq<ServerMessage>, m: Message)
    ensures m in Merged(messages, history) <==>
            m in messages || exists i :: 0 <= i < |history| && NewIn(messages, history, i, m)
  {
    if history != [] {
      var n := |history| - 1;
      var init := history[..n];
      MergedMembers(messages, init, m);
      assert init + [history[n]] == history;
      forall i | 0 <= i < n ensures NewIn(messages, history, i, m) <==> NewIn(messages, init, i, m) {
        NewInPush(messages, init, history[n], i, m);
      }
      MergedKnows(messages, init, history[n].id);
      hide Merged, Ids, NewIn;
      MergedLast(messages, history, m);
    }
  }

  lemma MergedLast(messages: seq<Message>, history: seq<ServerMessage>, m: Message)
    requires history != []
    ensures var n := |history| - 1;
            m in Merged(messages, history) <==> m in Merged(messages, history[..n]) || NewIn(messages, history, n, m)
  {
    var n := |history| - 1;
    MergedKnows(messages, history[..n], history[n].id);
    assert forall j :: 0 <= j < n ==> history[..n][j] == history[j];
  }

  lemma {:induction false} MergedKnows(messages: seq<Message>, history: seq<ServerMessage>, id: Id)
    ensures id in Ids(Merged(messages, history)) <==>
            (exists x <- messages :: x.id == id) || exists i :: 0 <= i < |history| && history[i].id == id
  {
    if history == [] {
      IdsMembers(messages, id);
    } else {
      var n := |history| - 1;
      MergedKnows(messages, history[..n], id);
      PushId(Merged(messages, history[..n]), FromServer(history[n]));
      assert history == history[..n] + [history[n]];
      hide Ids;
    }
  }

  lemma HistoryMembers(c: Channel, history: seq<ServerMessage>, m: Message)
    ensures m in LoadHistory(c, history).messages <==>
            m in c.messages || exists i :: 0 <= i < |history| && NewIn(c.messages, history, i, m)
  {
    MergedMembers(c.messages, history, m);
    SortedKeepsRow(Merged(c.messages, history), m);
    hide Sorted, Merged, NewIn;
  }

  // ---- an echo that comes after a history load ----

  // The echo confirms its pending message exactly when the id is not in the list yet.
  lemma EchoConfirmsIff(c: Channel, e: ServerMessage)
    requires Tidy(c) && FirstMatch(c.messages, e) < |c.messages|
    ensures var p := c.messages[FirstMatch(c.messages, e)];
            p in Apply(c, Created(c.id, e)).messages <==> e.id in Ids(c.messages)
  {
    var s, k := c.messages, FirstMatch(c.messages, e);
    if e.id !in Ids(s) {
      var next := s[k := Confirmed(s[k], e)];
      SortedFacts(next);
      forall i | 0 <= i < |next| ensures next[i] != s[k] {
        assert i != k ==> s[i].id != s[k].id;
        assert s[k].id in Ids(s);
      }
      assert s[k] !in next;
      assert s[k] !in multiset(Sorted(next));
      hide Sorted;
    }
  }

  lemma SortedKeepsRow(s: seq<Message>, p: Message)
    ensures p in Sorted(s) <==> p in s
  {
    SortedFacts(s);
    assert p in multiset(Sorted(s)) <==> p in multiset(s);
  }

  // A pending message goes exactly by a deletion of its id, or by a created event with an
  // unknown id whose first match it is: whatever that event was the echo of.
  lemma PendingRowGoesIff(c: Channel, ev: Event, i: nat)
    requires Tidy(c) && i < |c.messages| && c.messages[i].status.Pending?
    ensures c.messages[i] !in Apply(c, ev).messages <==>
            && ev.channel == c.id
            && (|| (ev.Deleted? && ev.messageId == c.messages[i].id)
                || (ev.Created? && ev.message.id !in Ids(c.messages) && FirstMatch(c.messages, ev.message) == i))
  {
    var s, p := c.messages, c.messages[i];
    match ev
    case Created(_, e) =>
      var k := FirstMatch(s, e);
      var next := if k < |s| then s[k := Confirmed(s[k], e)] else s + [FromServer(e)];
      if k == i {
        forall j | 0 <= j < |next| ensures next[j] != p {
          assert j != k ==> s[j].id != p.id;
        }
      } else {
        assert next[i] == p;
      }
      SortedKeepsRow(next, p);
    case Deleted(_, id) => WithoutMembers(s, id);
    case Other(_) =>
  }

  // A failed message is never confirmed: the only event that takes it away is a deletion of
  // its id, so the echo of a send that did arrive lands beside it.
  lemma FailedRowGoesIff(c: Channel, ev: Event, p: Message)
    requires Tidy(c) && p in c.messages && p.status.Failed?
    ensures p !in Apply(c, ev).messages <==> ev.Deleted? && ev.channel == c.id && ev.messageId == p.id
  {
    var s := c.messages;
    match ev
    case Created(_, e) =>
      var k := FirstMatch(s, e);
      var next := if k < |s| then s[k := Confirmed(s[k], e)] else s + [FromServer(e)];
      var i :| 0 <= i < |s| && s[i] == p;
      assert i != k && next[i] == p;
      SortedKeepsRow(next, p);
    case Deleted(_, id) => WithoutMembers(s, id);
    case Other(_) =>
  }

  lemma InsertKeeps(s: seq<Message>, m: Message)
    requires InOrder(s)
    ensures Sorted(s + [m]) == Insert(s, m)
  {
    SortedAlready(s);
    assert (s + [m])[..|s|] == s;
  }

  lemma SentMembers(c: Channel, m: Message)
    requires m.status.Pending? && m.author.Some? && m.localId == Some(m.id)
    ensures var sent := AppendOptimistic(c, m.id, m.author.value, m.body, m.createdAt);
            forall x :: x in sent.messages <==> x in c.messages || x == m
  {
    var all := c.messages + [m];
    forall x ensures x in Sorted(all) <==> x in c.messages || x == m {
      SortedKeepsRow(all, x);
    }
    hide Sorted;
  }

  // A history load that already carries the sent message leaves its optimistic copy pending:
  // the echo then finds the id and changes nothing, however often it comes.
  lemma HistoryStrandsPending(c: Channel, l: Id, author: Id, body: Text, at: int, e: ServerMessage)
    requires Tidy(c) && l !in Ids(c.messages) && e.id !in Ids(c.messages) && e.id != l
    requires e.author == Some(author) && e.body == body
    ensures var sent := AppendOptimistic(c, l, author, body, at);
            var loaded := LoadHistory(sent, [e]);
            && Message(l, Some(author), body, at, Pending, Some(l)) in Apply(loaded, Created(c.id, e)).messages
            && FromServer(e) in Apply(loaded, Created(c.id, e)).messages
  {
    var m := Message(l, Some(author), body, at, Pending, Some(l));
    var sent := AppendOptimistic(c, l, author, body, at);
    SentMembers(c, m);
    var loaded, sentByServer := LoadHistory(sent, [e]), FromServer(e);
    assert NewIn(sent.messages, [e], 0, sentByServer) by {
      IdsMembers(c.messages, e.id);
    }
    hide Sorted, Merged, NewIn, AppendOptimistic, LoadHistory;
    HistoryMembers(sent, [e], m);
    HistoryMembers(sent, [e], sentByServer);
    IdsMembers(loaded.messages, e.id);
    assert loaded.messages != [] && sentByServer in loaded.messages;
    hide Ids;
  }

  // The stranded copy is taken by the next message of the same author and text: it is then
  // shown as sent under that message's id.
  lemma StrandedTakesNext(c: Channel, i: nat, e: ServerMessage)
    requires Tidy(c) && FirstMatch(c.messages, e) == i < |c.messages| && e.id !in Ids(c.messages)
    ensures c.messages[i] !in Apply(c, Created(c.id, e)).messages
    ensures Confirmed(c.messages[i], e) in Apply(c, Created(c.id, e)).messages
  {
    PendingRowGoesIff(c, Created(c.id, e), i);
    var next := c.messages[i := Confirmed(c.messages[i], e)];
    assert next[i] == Confirmed(c.messages[i], e);
    SortedKeepsRow(next, next[i]);
  }
}
