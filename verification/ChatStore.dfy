// The Android message store: optimistic rows, POST acks and realtime deliveries that race
// and repeat.
module ChatStore {

  import opened Options

  datatype Id = Id(text: string)
  datatype Text = Text(chars: string)

  datatype Message = Message(id: Id, channel: Id, author: Id, body: Text, createdAt: int)
  datatype SendState = Pending | Sent | Failed
  datatype Entry = Entry(message: Message, state: SendState, localId: Option<Id>)

  datatype RealtimeEvent =
    | MessageCreated(message: Message)
    | MessageDeleted(channel: Id, messageId: Id)
    | MemberChanged(channel: Id)
    | ReactionUpdated(channel: Id)

  function Confirm(m: Message): Entry {
    Entry(m, Sent, None)
  }

  function Optimistic(localId: Id, channel: Id, author: Id, body: Text, at: int): Entry {
    Entry(Message(localId, channel, author, body, at), Pending, Some(localId))
  }

  // ---- first-match searches; the length means "none" ----

  function FirstLocal(arr: seq<Entry>, localId: Id): (k: nat)
    ensures k <= |arr| && (k < |arr| ==> arr[k].localId == Some(localId))
    ensures forall i :: 0 <= i < k ==> arr[i].localId != Some(localId)
  {
    if arr == [] || arr[0].localId == Some(localId) then 0 else 1 + FirstLocal(arr[1..], localId)
  }

  predicate Matches(e: Entry, m: Message) {
    e.localId.Some? && e.message.author == m.author && e.message.body == m.body
  }

  function FirstMatch(arr: seq<Entry>, m: Message): (k: nat)
    ensures k <= |arr| && (k < |arr| ==> Matches(arr[k], m))
    ensures forall i :: 0 <= i < k ==> !Matches(arr[i], m)
  {
    if arr == [] || Matches(arr[0], m) then 0 else 1 + FirstMatch(arr[1..], m)
  }

  function FirstId(arr: seq<Entry>, id: Id): (k: nat)
    ensures k <= |arr| && (k < |arr| ==> arr[k].message.id == id)
    ensures forall i :: 0 <= i < k ==> arr[i].message.id != id
  {
    if arr == [] || arr[0].message.id == id then 0 else 1 + FirstId(arr[1..], id)
  }

  predicate HasConfirmed(arr: seq<Entry>, id: Id) {
    exists i :: 0 <= i < |arr| && arr[i].message.id == id && arr[i].localId.None?
  }

  function Cut(arr: seq<Entry>, k: nat): seq<Entry> {
    if k < |arr| then arr[..k] + arr[k + 1..] else arr
  }

  // ---- what each operation makes of a channel's list ----

  function Promoted(arr: seq<Entry>, localId: Id, saved: Message): seq<Entry> {
    var k := FirstLocal(arr, localId);
    if HasConfirmed(arr, saved.id) then Cut(arr, k)
    else if k < |arr| then arr[k := Confirm(saved)]
    else arr + [Confirm(saved)]
  }

  function Marked(arr: seq<Entry>, localId: Id, state: SendState): seq<Entry> {
    var k := FirstLocal(arr, localId);
    if k < |arr| then arr[k := arr[k].(state := state)] else arr
  }

  function Upserted(arr: seq<Entry>, incoming: Message): seq<Entry> {
    if HasConfirmed(arr, incoming.id) then arr
    else
      var k := FirstMatch(arr, incoming);
      if k < |arr| then arr[k := Confirm(incoming)] else arr + [Confirm(incoming)]
  }

  function Removed(arr: seq<Entry>, messageId: Id): seq<Entry> {
    Cut(arr, FirstId(arr, messageId))
  }

  function Loaded(page: seq<Message>): (arr: seq<Entry>)
    ensures |arr| == |page| && forall i :: 0 <= i < |arr| ==> arr[i] == Confirm(page[i])
  {
    seq(|page|, i requires 0 <= i < |page| => Confirm(page[i]))
  }

  // ---- repeated and immediate deliveries ----

  lemma UpsertTwice(arr: seq<Entry>, m: Message)
    ensures Upserted(Upserted(arr, m), m) == Upserted(arr, m)
  {
    if !HasConfirmed(arr, m.id) {
      var k := FirstMatch(arr, m);
      var b := Upserted(arr, m);
      assert b[if k < |arr| then k else |arr|] == Confirm(m);
    }
  }

  // Row k is the first optimistic row by m's author with m's body.
  predicate FirstSent(arr: seq<Entry>, m: Message, k: nat)
    requires k < |arr|
  {
    && arr[k].localId != None && arr[k].message.author == m.author && arr[k].message.body == m.body
    && forall j :: 0 <= j < k ==>
         arr[j].localId == None || arr[j].message.author != m.author || arr[j].message.body != m.body
  }

  // A realtime message that is already confirmed changes nothing. Otherwise the first optimistic
  // row by its author with its body becomes it, and when there is none it is appended; every
  // other row stays in place, in particular every row by somebody else or with another body.
  lemma RealtimeEffect(arr: seq<Entry>, m: Message)
    ensures var b := Upserted(arr, m);
            var known := exists i :: 0 <= i < |arr| && arr[i].message.id == m.id && arr[i].localId == None;
            && (known ==> b == arr)
            && (!known ==> forall k :: 0 <= k < |arr| && FirstSent(arr, m, k) ==> b == arr[k := Entry(m, Sent, None)])
            && (!known && (forall k :: 0 <= k < |arr| ==> !FirstSent(arr, m, k)) ==> b == arr + [Entry(m, Sent, None)])
            && (forall i :: 0 <= i < |arr| && (arr[i].message.author != m.author || arr[i].message.body != m.body) ==>
                  b[i] == arr[i])
  {
    var k := FirstMatch(arr, m);
    if k < |arr| {
      assert FirstSent(arr, m, k);
    }
  }

  // Deleting twice is deleting once exactly when no second row goes by that id.
  lemma RemoveTwiceIff(arr: seq<Entry>, id: Id)
    ensures Removed(Removed(arr, id), id) == Removed(arr, id) <==>
            forall i, j :: 0 <= i < j < |arr| ==> !(arr[i].message.id == id && arr[j].message.id == id)
  {
    var k := FirstId(arr, id);
    var b := Removed(arr, id);
    if k < |arr| {
      assert |b| == |arr| - 1 && forall i :: 0 <= i < |b| ==> b[i] == arr[if i < k then i else i + 1];
      var m := FirstId(b, id);
      if m < |b| {
        assert |Removed(b, id)| == |b| - 1;
        assert arr[k].message.id == id && arr[m + 1].message.id == id && k <= m;
      } else {
        forall i, j | 0 <= i < j < |arr| ensures !(arr[i].message.id == id && arr[j].message.id == id) {
          if j > k {
            assert b[j - 1] == arr[j];
          }
        }
      }
    }
  }

  // A send that is settled at once: acked, the channel has gained the server's message and
  // nothing else, unless realtime had brought it already; failed, it has gained a failed row.
  lemma SendSettles(arr: seq<Entry>, channel: Id, author: Id, body: Text, l: Id, at: int, saved: Message)
    requires forall i :: 0 <= i < |arr| ==> arr[i].localId != Some(l)
    ensures var e := Optimistic(l, channel, author, body, at);
            && Promoted(arr + [e], l, saved) == (if HasConfirmed(arr, saved.id) then arr else arr + [Confirm(saved)])
            && Marked(arr + [e], l, Failed) == arr + [e.(state := Failed)]
  {
    var e := Optimistic(l, channel, author, body, at);
    var b := arr + [e];
    FirstLocalIs(b, l, |arr|);
    assert HasConfirmed(b, saved.id) <==> HasConfirmed(arr, saved.id) by {
      if HasConfirmed(arr, saved.id) {
        var i :| 0 <= i < |arr| && arr[i].message.id == saved.id && arr[i].localId.None?;
        assert b[i] == arr[i];
      }
    }
    assert b[..|arr|] + b[|arr| + 1..] == arr;
    assert b[|arr| := Confirm(saved)] == arr + [Confirm(saved)];
  }

  lemma FirstLocalIs(arr: seq<Entry>, l: Id, k: nat)
    requires k < |arr| && arr[k].localId == Some(l) && forall i :: 0 <= i < k ==> arr[i].localId != Some(l)
    ensures FirstLocal(arr, l) == k
  {
    assert arr[FirstLocal(arr, l)].localId == Some(l) || FirstLocal(arr, l) == |arr|;
  }

  // ---- the repository ----

  class ChatRepository {
    var messages: map<Id, seq<Entry>>

    constructor ()
      ensures messages == map[]
    {
      messages := map[];
    }

    function List(channel: Id): seq<Entry>
      reads this
    {
      if channel in messages then messages[channel] else []
    }

    // A new pending row; the POST is in flight from here on.
    method BeginSend(channel: Id, author: Id, body: Text, localId: Id, at: int)
      modifies this
      ensures messages == old(messages)[channel := old(List(channel))
              + [Optimistic(localId, channel, author, body, at)]]
    {
      var arr := List(channel);
      messages := messages[channel := arr + [Optimistic(localId, channel, author, body, at)]];
    }

    method Promote(channel: Id, localId: Id, saved: Message)
      modifies this
      ensures messages == old(messages)[channel := Promoted(old(List(channel)), localId, saved)]
    {
      var arr := List(channel);
      var idx := FirstLocal(arr, localId);
      if HasConfirmed(arr, saved.id) {
        if idx < |arr| {
          arr := arr[..idx] + arr[idx + 1..];
        }
      } else if idx < |arr| {
        arr := arr[idx := Confirm(saved)];
      } else {
        arr := arr + [Confirm(saved)];
      }
      messages := messages[channel := arr];
    }

    method Mark(channel: Id, localId: Id, state: SendState)
      modifies this
      ensures messages == old(messages)[channel := Marked(old(List(channel)), localId, state)]
    {
      var arr := List(channel);
      var idx := FirstLocal(arr, localId);
      if idx < |arr| {
        arr := arr[idx := arr[idx].(state := state)];
      }
      messages := messages[channel := arr];
    }

    method UpsertFromRealtime(incoming: Message)
      modifies this
      ensures messages == old(messages)[incoming.channel := Upserted(old(List(incoming.channel)), incoming)]
    {
      var arr := List(incoming.channel);
      if !HasConfirmed(arr, incoming.id) {
        var idx := FirstMatch(arr, incoming);
        if idx < |arr| {
          arr := arr[idx := Confirm(incoming)];
        } else {
          arr := arr + [Confirm(incoming)];
        }
      }
      messages := messages[incoming.channel := arr];
    }

    method Remove(channel: Id, messageId: Id)
      modifies this
      ensures messages == if channel in old(messages)
                          then old(messages)[channel := Removed(old(List(channel)), messageId)] else old(messages)
    {
      if channel !in messages {
        return;
      }
      var arr := messages[channel];
      var idx := FirstId(arr, messageId);
      if idx < |arr| {
        arr := arr[..idx] + arr[idx + 1..];
      }
      messages := messages[channel := arr];
    }

    method LoadMessages(channel: Id, page: seq<Message>)
      modifies this
      ensures messages == old(messages)[channel := Loaded(page)]
    {
      messages := messages[channel := Loaded(page)];
    }

    // A delivery touches its own channel only, and repeating a created event changes nothing more.
    method ApplyRealtimeEvent(e: RealtimeEvent)
      modifies this
      ensures e.MessageCreated? ==> List(e.message.channel) == Upserted(old(List(e.message.channel)), e.message)
      ensures e.MessageCreated? ==> Upserted(List(e.message.channel), e.message) == List(e.message.channel)
      ensures e.MessageDeleted? ==> List(e.channel) == Removed(old(List(e.channel)), e.messageId)
      ensures e.MemberChanged? || e.ReactionUpdated? ==> messages == old(messages)
      ensures forall c :: c != (if e.MessageCreated? then e.message.channel else e.channel) ==> List(c) == old(List(c))
    {
      match e
      case MessageCreated(m) =>
        UpsertTwice(List(m.channel), m);
        UpsertFromRealtime(m);
      case MessageDeleted(c, id) => Remove(c, id);
      case MemberChanged(_) =>
      case ReactionUpdated(_) =>
    }
  }
}
