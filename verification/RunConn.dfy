// The event-stream connections of a run: what a joining one is sent, what each event adds,
// and what a connection holds at every moment.
module RunConn {

  import opened Options
  import opened RunSpec

  type Id = nat
  type ConnId = nat

  // `joined` is how many events the run had when the connection opened.
  datatype Conn = Conn(run: Id, joined: nat, received: seq<RunEvent>, ended: bool, attached: bool)

  // A listener writes the event and ends the response on a terminal status; nothing is
  // written to an ended response.
  function Deliver(c: Conn, e: RunEvent): Conn {
    if !c.attached then c
    else c.(received := if c.ended then c.received else c.received + [e], ended := c.ended || Terminal(e))
  }

  function DeliverAll(c: Conn, es: seq<RunEvent>): Conn {
    if es == [] then c else Deliver(DeliverAll(c, es[..|es| - 1]), es[|es| - 1])
  }

  function Broadcast(conns: map<ConnId, Conn>, id: Id, es: seq<RunEvent>): map<ConnId, Conn> {
    map c | c in conns :: if conns[c].run == id then DeliverAll(conns[c], es) else conns[c]
  }

  function Settled(p: Proc): bool {
    p.run.status == Succeeded || p.run.status == Failed
  }

  // Replay first; a settled run ends the response there, otherwise the connection subscribes.
  function Joined(id: Id, p: Proc): Conn {
    Conn(id, |p.run.events|, p.run.events, Settled(p), !Settled(p))
  }

  lemma {:induction false} DeliverConcat(c: Conn, a: seq<RunEvent>, b: seq<RunEvent>)
    ensures DeliverAll(c, a + b) == DeliverAll(DeliverAll(c, a), b)
  {
    if b == [] {
      assert a + b == a;
    } else {
      var n := |b| - 1;
      DeliverConcat(c, a, b[..n]);
      assert (a + b)[..|a| + n] == a + b[..n] && (a + b)[|a| + n] == b[n];
    }
  }

  lemma {:induction false} DeliverKeepsRun(c: Conn, es: seq<RunEvent>)
    ensures DeliverAll(c, es).run == c.run && DeliverAll(c, es).joined == c.joined
            && DeliverAll(c, es).attached == c.attached
  {
    if es != [] {
      DeliverKeepsRun(c, es[..|es| - 1]);
    }
  }

  lemma BroadcastConcat(conns: map<ConnId, Conn>, id: Id, a: seq<RunEvent>, b: seq<RunEvent>)
    ensures Broadcast(Broadcast(conns, id, a), id, b) == Broadcast(conns, id, a + b)
  {
    forall c | c in conns ensures Broadcast(Broadcast(conns, id, a), id, b)[c] == Broadcast(conns, id, a + b)[c] {
      DeliverConcat(conns[c], a, b);
      DeliverKeepsRun(conns[c], a);
    }
    hide DeliverAll;
  }

  lemma BroadcastNone(conns: map<ConnId, Conn>, id: Id)
    ensures Broadcast(conns, id, []) == conns
  {
  }

  // ---- a connection against its run ----

  // The events up to and including the first terminal status.
  function Through(es: seq<RunEvent>): seq<RunEvent> {
    if es == [] then []
    else
      var n := |es| - 1;
      if TerminalCount(es[..n]) > 0 then Through(es[..n]) else es
  }

  lemma {:induction false} ThroughQuiet(es: seq<RunEvent>)
    ensures Through(es) <= es
    ensures TerminalCount(es) == 0 ==> Through(es) == es
    ensures TerminalCount(es) > 0 ==>
              && Through(es) != [] && Terminal(Through(es)[|Through(es)| - 1])
              && TerminalCount(Through(es)[..|Through(es)| - 1]) == 0
  {
    if es != [] {
      ThroughQuiet(es[..|es| - 1]);
    }
  }

  lemma ThroughSnoc(es: seq<RunEvent>, e: RunEvent)
    ensures Through(es + [e]) == if TerminalCount(es) > 0 then Through(es) else es + [e]
    ensures TerminalCount(es + [e]) == TerminalCount(es) + if Terminal(e) then 1 else 0
  {
    assert (es + [e])[..|es|] == es;
  }

  // The connection against its run's event list.
  ghost predicate ConnOk(c: Conn, events: seq<RunEvent>) {
    && c.joined <= |events|
    && if TerminalCount(events[..c.joined]) > 0 then
         // joined after the run settled: the buffered history, then the end
         c.ended && !c.attached && c.received == events[..c.joined]
       else if c.attached then
         c.received == Through(events) && (c.ended <==> TerminalCount(events) > 0)
       else
         c.received <= Through(events)
  }

  lemma DeliverOne(c: Conn, events: seq<RunEvent>, e: RunEvent)
    requires ConnOk(c, events)
    ensures ConnOk(Deliver(c, e), events + [e])
  {
    ThroughSnoc(events, e);
    ThroughQuiet(events);
    assert (events + [e])[..c.joined] == events[..c.joined];
    hide Through, TerminalCount;
  }

  lemma {:induction false} DeliverOk(c: Conn, events: seq<RunEvent>, es: seq<RunEvent>)
    requires ConnOk(c, events)
    ensures ConnOk(DeliverAll(c, es), events + es)
  {
    if es == [] {
      assert events + es == events;
    } else {
      var n := |es| - 1;
      DeliverOk(c, events, es[..n]);
      DeliverOne(DeliverAll(c, es[..n]), events + es[..n], es[n]);
      assert events + es[..n] + [es[n]] == events + es;
      hide ConnOk, Deliver;
    }
  }

  lemma JoinOk(id: Id, p: Proc)
    requires Inv(p)
    ensures ConnOk(Joined(id, p), p.run.events)
  {
    var es := p.run.events;
    assert es[..|es|] == es;
    ThroughQuiet(es);
    hide TerminalCount, Through;
  }

  lemma LeaveOk(c: Conn, events: seq<RunEvent>)
    requires ConnOk(c, events)
    ensures ConnOk(c.(attached := false), events)
  {
    hide Through, TerminalCount;
  }

  // ---- the whole store ----

  // Every run is in order, and every connection holds what its run has emitted for it.
  ghost predicate StoreOk(procs: map<Id, Proc>, conns: map<ConnId, Conn>) {
    && (forall id <- procs :: Inv(procs[id]))
    && (forall c <- conns :: conns[c].run in procs && ConnOk(conns[c], procs[conns[c].run].run.events))
  }

  lemma RunsKnown(procs: map<Id, Proc>, conns: map<ConnId, Conn>)
    requires StoreOk(procs, conns)
    ensures forall c <- conns :: conns[c].run in procs
  {
  }

  lemma SpawnStarts(spawnError: Option<string>)
    ensures IsStart(if spawnError.None? then SPAWNED else SpawnFailed(spawnError.value))
  {
  }

  lemma RecordedStarts(message: string)
    ensures IsStart(Recorded(message))
  {
  }

  lemma ReactAppends(isJson: string -> bool, p: Proc, i: Input)
    requires Enabled(p, i)
    ensures React(isJson, p, i).run.events == p.run.events + Emitted(isJson, p, i)
    ensures React(isJson, p, i).live ==> p.live
  {
    hide Emitted;
  }

  // One run reacts and its connections hear of it: the others are not concerned.
  lemma HandleKeeps(isJson: string -> bool, procs: map<Id, Proc>, conns: map<ConnId, Conn>, id: Id, i: Input)
    requires StoreOk(procs, conns) && id in procs && Enabled(procs[id], i)
    ensures StoreOk(procs[id := React(isJson, procs[id], i)], Broadcast(conns, id, Emitted(isJson, procs[id], i)))
  {
    hide Inv, ConnOk, React, Emitted, DeliverAll, Enabled;
    ReactKeeps(isJson, procs[id], i);
    ReactAppends(isJson, procs[id], i);
    var es := Emitted(isJson, procs[id], i);
    forall c | c in conns ensures conns[c].run in procs && DeliverAll(conns[c], es).run == conns[c].run {
      DeliverKeepsRun(conns[c], es);
    }
    forall c | c in conns && conns[c].run == id ensures ConnOk(DeliverAll(conns[c], es), procs[id].run.events + es) {
      DeliverOk(conns[c], procs[id].run.events, es);
    }
  }

  lemma StartKeeps(procs: map<Id, Proc>, conns: map<ConnId, Conn>, id: Id, p: Proc)
    requires StoreOk(procs, conns) && id !in procs && IsStart(p)
    ensures StoreOk(procs[id := p], conns)
  {
    StartInv(p);
    hide Inv, ConnOk, IsStart;
  }

  lemma JoinKeeps(procs: map<Id, Proc>, conns: map<ConnId, Conn>, c: ConnId, id: Id)
    requires StoreOk(procs, conns) && c !in conns && id in procs
    ensures StoreOk(procs, conns[c := Joined(id, procs[id])])
  {
    JoinOk(id, procs[id]);
    assert Joined(id, procs[id]).run == id;
    hide Inv, ConnOk, Joined;
  }

  lemma LeaveKeeps(procs: map<Id, Proc>, conns: map<ConnId, Conn>, c: ConnId)
    requires StoreOk(procs, conns) && c in conns
    ensures StoreOk(procs, conns[c := conns[c].(attached := false)])
  {
    LeaveOk(conns[c], procs[conns[c].run].run.events);
    hide Inv, ConnOk;
  }

  // Nothing reaches a connection that has left.
  lemma {:induction false} LeaverHearsNothing(c: Conn, es: seq<RunEvent>)
    requires !c.attached
    ensures DeliverAll(c, es) == c
  {
    if es != [] {
      LeaverHearsNothing(c, es[..|es| - 1]);
    }
  }
}
