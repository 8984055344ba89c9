// What an event-stream connection receives, over every history of its run, and what the
// relay makes of it at the other end.
module RunStream {
  import opened TextLines
  import opened RunSpec
  import opened RunConn
  import Sse

  // ---- every history of the store, for one run and one connection ----

  datatype Happening = Handle(i: Input) | Leave

  ghost predicate CanHappen(p: Proc, h: Happening) {
    h.Handle? ==> Enabled(p, h.i)
  }

  ghost function Following(isJson: string -> bool, p: Proc, h: Happening): Proc
    requires CanHappen(p, h)
  {
    if h.Handle? then React(isJson, p, h.i) else p
  }

  ghost function Hearing(isJson: string -> bool, p: Proc, c: Conn, h: Happening): Conn
    requires CanHappen(p, h)
  {
    match h
    case Handle(i) => DeliverAll(c, Emitted(isJson, p, i))
    case Leave => c.(attached := false)
  }

  ghost predicate Possible(isJson: string -> bool, p: Proc, hs: seq<Happening>)
    decreases |hs|
  {
    hs == [] || (CanHappen(p, hs[0]) && Possible(isJson, Following(isJson, p, hs[0]), hs[1..]))
  }

  // Where the run and the connection are after all of it.
  ghost function Attends(isJson: string -> bool, p: Proc, c: Conn, hs: seq<Happening>): (Proc, Conn)
    requires Possible(isJson, p, hs)
    decreases |hs|
  {
    if hs == [] then (p, c)
    else Attends(isJson, Following(isJson, p, hs[0]), Hearing(isJson, p, c, hs[0]), hs[1..])
  }

  // What one step keeps between a run and a connection that joined it as p0, events0.
  ghost predicate Together(p0: Proc, p: Proc, c: Conn) {
    && Inv(p) && ConnOk(c, p.run.events)
    && p0.run.events <= p.run.events && (!p0.live ==> !p.live)
    && c.joined == |p0.run.events|
  }

  lemma StepTogether(isJson: string -> bool, p0: Proc, p: Proc, c: Conn, h: Happening)
    requires CanHappen(p, h) && Together(p0, p, c)
    ensures Together(p0, Following(isJson, p, h), Hearing(isJson, p, c, h))
    ensures h.Handle? ==> Hearing(isJson, p, c, h).attached == c.attached
  {
    hide Inv, ConnOk, Emitted, DeliverAll, React, Enabled;
    match h
    case Handle(i) =>
      var es := Emitted(isJson, p, i);
      ReactKeeps(isJson, p, i);
      DeliverOk(c, p.run.events, es);
      DeliverKeepsRun(c, es);
      ReactAppends(isJson, p, i);
    case Leave => LeaveOk(c, p.run.events);
  }

  lemma {:induction false} AttendsTogether(isJson: string -> bool, p0: Proc, p: Proc, c: Conn, hs: seq<Happening>)
    requires Possible(isJson, p, hs) && Together(p0, p, c)
    ensures var (q, d) := Attends(isJson, p, c, hs);
            Together(p0, q, d) && ((forall h <- hs :: h.Handle?) ==> d.attached == c.attached)
    decreases |hs|
  {
    if hs != [] {
      StepTogether(isJson, p0, p, c, hs[0]);
      AttendsTogether(isJson, p0, Following(isJson, p, hs[0]), Hearing(isJson, p, c, hs[0]), hs[1..]);
      assert hs[0] in hs && forall h <- hs[1..] :: h in hs;
      hide Together, Following, Hearing, CanHappen;
    }
  }

  lemma JoinTogether(id: Id, p: Proc)
    requires Inv(p)
    ensures Together(p, p, Joined(id, p)) && Joined(id, p).attached == p.live
  {
    JoinOk(id, p);
    hide ConnOk, TerminalCount;
  }

  // A connection that joins a reachable run and stays: before the run settles it holds the
  // whole event list so far; once it settles it holds the list through the terminal status
  // and has ended. One that joined later holds the history it found.
  lemma StreamComplete(isJson: string -> bool, start: Proc, inputs: seq<Input>, id: Id, hs: seq<Happening>)
    requires IsStart(start) && Runs(isJson, start, inputs)
    requires Possible(isJson, After(isJson, start, inputs), hs) && forall h <- hs :: h.Handle?
    ensures var p := After(isJson, start, inputs);
            var (q, c) := Attends(isJson, p, Joined(id, p), hs);
            && (q.live ==> c.received == q.run.events && !c.ended)
            && (!q.live ==> c.ended)
            && (p.live ==> c.received == Through(q.run.events))
            && (!p.live ==> c.received == p.run.events)
  {
    var p := After(isJson, start, inputs);
    RunInv(isJson, start, inputs);
    JoinTogether(id, p);
    AttendsTogether(isJson, p, p, Joined(id, p), hs);
    var (q, c) := Attends(isJson, p, Joined(id, p), hs);
    hide Attends, Possible, Runs, After, Joined;
    Received(p, q, c);
  }

  lemma Received(p: Proc, q: Proc, c: Conn)
    requires Inv(p) && Together(p, q, c) && c.attached == p.live
    ensures (q.live ==> c.received == q.run.events && !c.ended) && (!q.live ==> c.ended)
    ensures (p.live ==> c.received == Through(q.run.events)) && (!p.live ==> c.received == p.run.events)
  {
    ThroughQuiet(q.run.events);
    assert q.run.events[..c.joined] == p.run.events;
    hide Through, TerminalCount;
  }

  // One that leaves early has a prefix of that, nothing else.
  lemma EarlyLeaver(isJson: string -> bool, p: Proc, id: Id, hs: seq<Happening>)
    requires Inv(p) && p.live && Possible(isJson, p, hs)
    ensures var (q, c) := Attends(isJson, p, Joined(id, p), hs);
            c.received <= Through(q.run.events)
  {
    JoinTogether(id, p);
    AttendsTogether(isJson, p, p, Joined(id, p), hs);
    var (q, c) := Attends(isJson, p, Joined(id, p), hs);
    assert q.run.events[..c.joined] == p.run.events;
    hide Through, TerminalCount, Attends, Possible;
  }

  // ---- end to end ----

  function Texts(json: RunEvent -> string, es: seq<RunEvent>): (t: seq<string>)
    ensures |t| == |es|
  {
    seq(|es|, i requires 0 <= i < |es| => json(es[i]))
  }

  // End to end, for a connection that joins any run at any moment and stays: with keep-alive
  // pings anywhere between the events and the stream cut anywhere, the relay's read loop yields
  // the run's events through the terminal status, or the history when the run had settled.
  lemma RelayRecovers(isJson: string -> bool, start: Proc, inputs: seq<Input>, id: Id, hs: seq<Happening>,
                      json: RunEvent -> string, frames: seq<Sse.Frame>, chunks: seq<string>)
    requires IsStart(start) && Runs(isJson, start, inputs)
    requires Possible(isJson, After(isJson, start, inputs), hs) && forall h <- hs :: h.Handle?
    requires forall e :: Sse.IsJsonText(json(e))
    requires var p := After(isJson, start, inputs);
             Sse.Payloads(frames) == Texts(json, Attends(isJson, p, Joined(id, p), hs).1.received)
    requires Concat(chunks) == Sse.Wire(frames)
    ensures var p := After(isJson, start, inputs);
            var q := Attends(isJson, p, Joined(id, p), hs).0;
            Sse.Feed("", chunks) == Sse.Drained(Texts(json, if p.live then Through(q.run.events) else p.run.events), "")
  {
    StreamComplete(isJson, start, inputs, id, hs);
    var p := After(isJson, start, inputs);
    PayloadsAreJson(json, frames, Attends(isJson, p, Joined(id, p), hs).1.received);
    Sse.SseRoundTrip(frames, chunks);
    hide Attends, Possible, Runs, After, Joined, IsStart, Texts, Through;
  }

  lemma {:induction false} PayloadsAreJson(json: RunEvent -> string, frames: seq<Sse.Frame>, es: seq<RunEvent>)
    requires forall e :: Sse.IsJsonText(json(e))
    requires Sse.Payloads(frames) == Texts(json, es)
    ensures Sse.Sendable(frames)
  {
    forall f | f in frames && f.Event? ensures Sse.IsJsonText(f.json) {
      InPayloads(frames, f);
      var i :| 0 <= i < |es| && Texts(json, es)[i] == f.json;
    }
  }

  lemma {:induction false} InPayloads(frames: seq<Sse.Frame>, f: Sse.Frame)
    requires f in frames && f.Event?
    ensures f.json in Sse.Payloads(frames)
  {
    if frames[0] != f {
      InPayloads(frames[1..], f);
    }
  }
}
