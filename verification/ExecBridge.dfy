// The run store: every run with its child, and the event-stream connections attached to
// them. Handlers update one run and fan its new events out before anything else happens.
module ExecBridge {

  import opened Options
  import opened TextLines
  import opened RunSpec
  import opened RunConn

  const PENDING: Proc := Proc(FRESH, false, false, false, IDLE, "", "")

  function Emitting(p: Proc, es: seq<RunEvent>): Proc {
    p.(run := p.run.(events := p.run.events + es))
  }

  class RunStore {
    var procs: map<Id, Proc>
    var conns: map<ConnId, Conn>
    const isJson: string -> bool

    ghost predicate Valid()
      reads this
    {
      StoreOk(procs, conns)
    }

    constructor (isJson: string -> bool)
      ensures Valid() && procs == map[] && conns == map[] && this.isJson == isJson
    {
      this.isJson := isJson;
      procs, conns := map[], map[];
    }

    // One run reacted to one input; its connections got what it emitted.
    twostate predicate Handled(id: Id, i: Input)
      requires id in old(procs) && Enabled(old(procs)[id], i)
      reads this
    {
      && procs == old(procs)[id := React(isJson, old(procs)[id], i)]
      && conns == Broadcast(old(conns), id, Emitted(isJson, old(procs)[id], i))
    }

    method Emit(id: Id, e: RunEvent)
      requires id in procs
      modifies this
      ensures procs == old(procs)[id := Emitting(old(procs)[id], [e])]
      ensures conns == Broadcast(old(conns), id, [e])
    {
      var p := procs[id];
      procs := procs[id := p.(run := p.run.(events := p.run.events + [e]))];
      conns := Broadcast(conns, id, [e]);
    }

    // Emitting on top of events already emitted by the same handler.
    method EmitMore(id: Id, e: RunEvent, ghost procs0: map<Id, Proc>, ghost conns0: map<ConnId, Conn>, ghost p: Proc,
                    ghost es: seq<RunEvent>)
      requires id in procs0 && procs == procs0[id := Emitting(p, es)] && conns == Broadcast(conns0, id, es)
      modifies this
      ensures procs == procs0[id := Emitting(p, es + [e])] && conns == Broadcast(conns0, id, es + [e])
    {
      BroadcastConcat(conns0, id, es, [e]);
      Assoc(p.run.events, es, [e]);
      Emit(id, e);
    }

    // The run is recorded as pending; nobody listens to it yet.
    method Record(id: Id)
      requires id !in procs
      modifies this
      ensures procs == old(procs)[id := PENDING] && conns == old(conns)
    {
      procs := procs[id := PENDING];
    }

    method SpawnClaude(id: Id, spawnError: Option<string>)
      requires id in procs && procs[id] == PENDING && forall c <- conns :: conns[c].run != id
      modifies this
      ensures procs == old(procs)[id := if spawnError.None? then SPAWNED else SpawnFailed(spawnError.value)]
      ensures conns == old(conns)
    {
      if spawnError.Some? {
        Emit(id, ErrorEvent("spawn failed: " + spawnError.value));
        procs := procs[id := procs[id].(run := procs[id].run.(status := Failed))];
        Emit(id, StatusEvent(Failed));
        assert procs[id] == SpawnFailed(spawnError.value);
      } else {
        procs := procs[id := PENDING.(spawned := true, live := true, run := PENDING.run.(status := Running))];
        Emit(id, StatusEvent(Running));
        assert procs[id] == SPAWNED;
      }
    }

    method Start(id: Id, spawnError: Option<string>)
      requires Valid() && id !in procs
      modifies this
      ensures procs == old(procs)[id := if spawnError.None? then SPAWNED else SpawnFailed(spawnError.value)]
      ensures conns == old(conns)
      ensures Valid()
    {
      ghost var procs0 := procs;
      RunsKnown(procs, conns);
      SpawnStarts(spawnError);
      Record(id);
      SpawnClaude(id, spawnError);
      StartKeeps(procs0, conns, id, procs[id]);
    }

    // A run that could not even be spawned is recorded as failed at once.
    method Fail(id: Id, message: string)
      requires Valid() && id !in procs
      modifies this
      ensures procs == old(procs)[id := Recorded(message)] && conns == old(conns)
      ensures Valid()
    {
      ghost var procs0 := procs;
      RunsKnown(procs, conns);
      RecordedStarts(message);
      Record(id);
      FailPending(id, message);
      StartKeeps(procs0, conns, id, procs[id]);
    }

    method FailPending(id: Id, message: string)
      requires id in procs && procs[id] == PENDING && forall c <- conns :: conns[c].run != id
      modifies this
      ensures procs == old(procs)[id := Recorded(message)] && conns == old(conns)
    {
      Emit(id, ErrorEvent(message));
      procs := procs[id := procs[id].(run := procs[id].run.(ended := true, status := Failed))];
      Emit(id, StatusEvent(Failed));
      assert procs[id] == Recorded(message);
    }

    method OnStderr(id: Id, chunk: string)
      requires Valid() && id in procs && Enabled(procs[id], Stderr(chunk))
      modifies this
      ensures Handled(id, Stderr(chunk))
      ensures Valid()
    {
      hide StoreOk;
      ghost var procs0, conns0 := procs, conns;
      var p := procs[id];
      var buf := p.stderrBuf + chunk;
      ghost var all, sent := Complete(buf), [];
      BroadcastNone(conns, id);
      assert Emitting(p, []) == p && [] + all == all;
      var k := FirstNewline(buf);
      while k < |buf|
        invariant k == FirstNewline(buf)
        invariant sent + Complete(buf) == all && Unfinished(buf) == Unfinished(p.stderrBuf + chunk)
        invariant procs == procs0[id := Emitting(p, ErrLines(sent))] && conns == Broadcast(conns0, id, ErrLines(sent))
        decreases |buf|
      {
        var line := buf[..k];
        NextLine(buf, k);
        Assoc(sent, [line], Complete(buf[k + 1..]));
        hide Complete, Unfinished, Broadcast, FirstNewline;
        buf := buf[k + 1..];
        assert ErrLines(sent + [line]) == ErrLines(sent) + [StderrEvent(Child, line)];
        EmitMore(id, StderrEvent(Child, line), procs0, conns0, p, ErrLines(sent));
        sent := sent + [line];
        k := FirstNewline(buf);
      }
      LastLine(buf);
      assert sent == all;
      procs := procs[id := procs[id].(stderrBuf := buf)];
      HandleKeeps(isJson, old(procs), old(conns), id, Stderr(chunk));
    }

    method HandleStdoutLine(id: Id, line: string, ghost procs0: map<Id, Proc>, ghost conns0: map<ConnId, Conn>,
                            ghost p: Proc, ghost es: seq<RunEvent>)
      requires id in procs0 && procs == procs0[id := Emitting(p, es)] && conns == Broadcast(conns0, id, es)
      modifies this
      ensures procs == procs0[id := Emitting(p, es + OutLine(isJson, line))]
      ensures conns == Broadcast(conns0, id, es + OutLine(isJson, line))
    {
      var t := Trim(line);
      assert es + [] == es;
      hide Trim, Broadcast;
      if t == "" {
        return;
      }
      EmitMore(id, if isJson(t) then ClaudeEvent(t) else StdoutEvent(t), procs0, conns0, p, es);
    }

    method OnStdout(id: Id, chunk: string)
      requires Valid() && id in procs && Enabled(procs[id], Stdout(chunk))
      modifies this
      ensures Handled(id, Stdout(chunk))
      ensures Valid()
    {
      hide StoreOk, OutLines, OutLine, Broadcast;
      OutLinesNone(isJson);
      ghost var procs0, conns0 := procs, conns;
      var p := procs[id];
      var buf := p.stdoutBuf + chunk;
      ghost var all, sent := Complete(buf), [];
      BroadcastNone(conns, id);
      assert Emitting(p, []) == p && [] + all == all;
      var k := FirstNewline(buf);
      while k < |buf|
        invariant k == FirstNewline(buf)
        invariant sent + Complete(buf) == all && Unfinished(buf) == Unfinished(p.stdoutBuf + chunk)
        invariant procs == procs0[id := Emitting(p, OutLines(isJson, sent))]
                && conns == Broadcast(conns0, id, OutLines(isJson, sent))
        decreases |buf|
      {
        var line := buf[..k];
        NextLine(buf, k);
        Assoc(sent, [line], Complete(buf[k + 1..]));
        OutLinesSnoc(isJson, sent, line);
        hide Complete, Unfinished, FirstNewline;
        buf := buf[k + 1..];
        HandleStdoutLine(id, line, procs0, conns0, p, OutLines(isJson, sent));
        sent := sent + [line];
        k := FirstNewline(buf);
      }
      LastLine(buf);
      assert sent == all;
      procs := procs[id := procs[id].(stdoutBuf := buf)];
      HandleKeeps(isJson, old(procs), old(conns), id, Stdout(chunk));
    }

    method OnTimer(id: Id, hard: bool)
      requires Valid() && id in procs && Enabled(procs[id], if hard then HardFires else IdleFires)
      modifies this
      ensures Handled(id, if hard then HardFires else IdleFires)
      ensures Valid()
    {
      hide StoreOk;
      BroadcastNone(conns, id);
      var p := procs[id];
      assert p.run.events + [] == p.run.events;
      procs := procs[id := p.(active := p.active.(timedOut := true,
          kind := Some(if hard then HardTimeout else IdleTimeout)))];
      HandleKeeps(isJson, old(procs), old(conns), id, if hard then HardFires else IdleFires);
    }

    method Cancel(id: Id) returns (signalled: bool)
      requires Valid() && id in procs
      modifies this
      ensures Handled(id, Input.Cancel) && signalled == old(procs)[id].live
      ensures Valid()
    {
      hide StoreOk;
      BroadcastNone(conns, id);
      var p := procs[id];
      assert p.run.events + [] == p.run.events;
      signalled := p.live;
      if signalled {
        procs := procs[id := p.(active := p.active.(cancelled := true))];
      } else {
        assert procs == procs[id := p];
      }
      HandleKeeps(isJson, old(procs), old(conns), id, Input.Cancel);
    }

    method Note(id: Id, line: string)
      requires Valid() && id in procs
      modifies this
      ensures Handled(id, Input.Note(line))
      ensures Valid()
    {
      hide StoreOk;
      Emit(id, StderrEvent(Daemon, "[commander] " + line));
      HandleKeeps(isJson, old(procs), old(conns), id, Input.Note(line));
    }

    method OnError(id: Id, message: string)
      requires Valid() && id in procs && Enabled(procs[id], ChildError(message))
      modifies this
      ensures Handled(id, ChildError(message))
      ensures Valid()
    {
      hide StoreOk;
      Emit(id, ErrorEvent(message));
      HandleKeeps(isJson, old(procs), old(conns), id, ChildError(message));
    }

    method OnClose(id: Id, code: Option<int>)
      requires Valid() && id in procs && Enabled(procs[id], Close(code))
      modifies this
      ensures Handled(id, Close(code))
      ensures Valid()
    {
      hide StoreOk;
      ghost var procs0, conns0 := procs, conns;
      var p := procs[id];
      var a := p.active;
      BroadcastNone(conns, id);
      procs := procs[id := p.(live := false, closed := true)];
      ghost var q, es := procs[id], [];
      assert Emitting(q, []) == q;
      if a.aborted {
        HandleKeeps(isJson, old(procs), old(conns), id, Close(code));
        return;
      }
      ghost var base := procs;
      hide Broadcast, OutLine;
      assert procs == base[id := Emitting(q, [])];
      HandleStdoutLine(id, p.stdoutBuf, base, conns0, q, es);
      es := es + OutLine(isJson, p.stdoutBuf);
      if p.stderrBuf != "" {
        EmitMore(id, StderrEvent(Child, p.stderrBuf), base, conns0, q, es);
        es := es + [StderrEvent(Child, p.stderrBuf)];
      }
      EmitEnd(id, code, base, conns0, p, q, es);
      HandleKeeps(isJson, old(procs), old(conns), id, Close(code));
    }

    // The reason of a kill, the exit code and the terminal status.
    method EmitEnd(id: Id, code: Option<int>, ghost base: map<Id, Proc>, ghost conns0: map<ConnId, Conn>,
                   ghost p: Proc, ghost q: Proc, ghost es0: seq<RunEvent>)
      requires id in base && Enabled(p, Close(code)) && !p.active.aborted && q == p.(live := false, closed := true)
      requires procs == base[id := Emitting(q, es0)] && conns == Broadcast(conns0, id, es0)
      requires es0 == [] + OutLine(isJson, p.stdoutBuf) + if p.stderrBuf != "" then [StderrEvent(Child, p.stderrBuf)]
              else []
      modifies this
      ensures procs == base[id := React(isJson, p, Close(code))]
      ensures conns == Broadcast(conns0, id, Emitted(isJson, p, Close(code)))
    {
      var a := procs[id].active;
      ghost var es := es0;
      hide Broadcast, OutLine, Emitted, React;
      assert es + [] == es;
      if a.timedOut {
        var why := ErrorEvent(if a.kind == Some(HardTimeout) then "run hard-timed out" else "run timed out (idle)");
        EmitMore(id, why, base, conns0, q, es);
      } else if a.cancelled {
        EmitMore(id, ErrorEvent("run cancelled by operator"), base, conns0, q, es);
      }
      es := es + KillReason(a);
      EmitMore(id, ExitEvent(code), base, conns0, q, es);
      es := es + [ExitEvent(code)];
      var ok := code == Some(0) && !a.cancelled && !a.timedOut;
      var status := if ok then Succeeded else Failed;
      EmitMore(id, StatusEvent(status), base, conns0, q, es);
      CloseEvents(isJson, p, code, es + [StatusEvent(status)], status);
      ClosedRun(isJson, p, q, code);
      procs := procs[id := procs[id].(run := procs[id].run.(exitCode := code, ended := true, status := status))];
    }

    method AbortOne(id: Id, notice: string)
      requires Valid() && id in procs && procs[id].live
      modifies this
      ensures Handled(id, Abort(notice))
      ensures Valid()
    {
      hide StoreOk, Emitted, React, Broadcast;
      ghost var conns0 := conns;
      var p := procs[id];
      procs := procs[id := p.(live := false, active := p.active.(aborted := true))];
      ghost var base, q := procs, procs[id];
      BroadcastNone(conns, id);
      assert Emitting(q, []) == q;
      ghost var e1, e2, e3 := StderrEvent(Daemon, notice), ExitEvent(None), StatusEvent(Failed);
      EmitMore(id, StderrEvent(Daemon, notice), base, conns0, q, []);
      EmitMore(id, ExitEvent(None), base, conns0, q, [] + [e1]);
      EmitMore(id, StatusEvent(Failed), base, conns0, q, [] + [e1] + [e2]);
      assert [] + [e1] + [e2] + [e3] == [e1, e2, e3];
      AbortedRun(isJson, p, q, notice);
      procs := procs[id := procs[id].(run := procs[id].run.(status := Failed, exitCode := None, ended := true))];
      HandleKeeps(isJson, old(procs), old(conns), id, Abort(notice));
    }

    // GET /runs/:id/events: replay and subscribe in one go, nothing can be emitted between.
    method OpenStream(c: ConnId, id: Id)
      requires Valid() && id in procs && c !in conns
      modifies this
      ensures Valid()
      ensures procs == old(procs) && conns == old(conns)[c := Joined(id, old(procs)[id])]
    {
      JoinKeeps(procs, conns, c, id);
      hide StoreOk;
      var run := procs[id].run;
      var sent: seq<RunEvent> := [];
      for k := 0 to |run.events|
        invariant sent == run.events[..k]
      {
        sent := sent + [run.events[k]];
      }
      assert run.events[..|run.events|] == run.events;
      var finished := run.status == Succeeded || run.status == Failed;
      conns := conns[c := Conn(id, |run.events|, sent, finished, !finished)];
    }

    // Unsubscribed: it keeps what it holds, and nothing emitted later reaches it.
    method CloseStream(c: ConnId)
      requires Valid() && c in conns
      modifies this
      ensures Valid()
      ensures procs == old(procs) && conns == old(conns)[c := old(conns)[c].(attached := false)]
      ensures forall es :: DeliverAll(conns[c], es) == conns[c]
    {
      LeaveKeeps(procs, conns, c);
      hide StoreOk;
      forall es ensures DeliverAll(conns[c].(attached := false), es) == conns[c].(attached := false) {
        LeaverHearsNothing(conns[c].(attached := false), es);
      }
      conns := conns[c := conns[c].(attached := false)];
    }

    // Daemon shutdown: every live run is settled now, one after the other.
    method AbortAll(notice: string) returns (ids: set<Id>)
      requires Valid()
      modifies this
      ensures Valid()
      ensures ids == set id | id in old(procs) && old(procs)[id].live
      ensures AllAborted(isJson, old(procs), old(conns), procs, conns, notice)
    {
      ids := set id | id in procs && procs[id].live;
      var todo := ids;
      ghost var procs0, conns0 := procs, conns;
      hide StoreOk, Aborted, AllAborted, React, Emitted, Broadcast, DeliverAll;
      AbortNone(isJson, procs, conns, notice);
      assert ids - ids == {};
      while todo != {}
        invariant Valid() && todo <= ids
        invariant Aborted(isJson, procs0, conns0, procs, conns, ids - todo, notice)
        decreases todo
      {
        var id :| id in todo;
        ghost var done := ids - todo;
        AbortNext(isJson, procs0, conns0, procs, conns, done, id, notice);
        AbortOne(id, notice);
        todo := todo - {id};
        assert ids - todo == done + {id};
      }
      assert ids - {} == ids;
      AbortedAll(isJson, procs0, conns0, procs, conns, ids, notice);
    }
  }

  // The runs in `done` have been aborted, their connections told; nothing else has changed.
  ghost predicate Aborted(isJson: string -> bool, procs0: map<Id, Proc>, conns0: map<ConnId, Conn>,
                          procs: map<Id, Proc>, conns: map<ConnId, Conn>,
                          done: set<Id>, notice: string)
  {
    && procs.Keys == procs0.Keys && conns.Keys == conns0.Keys && done <= procs0.Keys
    && (forall id <- procs0 :: procs[id] == if id in done then React(isJson, procs0[id], Abort(notice)) else procs0[id])
    && (forall c <- conns0 :: conns[c] ==
          if conns0[c].run in done then DeliverAll(conns0[c], Emitted(isJson, procs0[conns0[c].run], Abort(notice)))
              else conns0[c])
  }

  lemma AbortNone(isJson: string -> bool, procs: map<Id, Proc>, conns: map<ConnId, Conn>, notice: string)
    ensures Aborted(isJson, procs, conns, procs, conns, {}, notice)
  {
  }

  lemma AbortNext(isJson: string -> bool, procs0: map<Id, Proc>, conns0: map<ConnId, Conn>, procs: map<Id, Proc>,
                  conns: map<ConnId, Conn>,
                  done: set<Id>, id: Id, notice: string)
    requires Aborted(isJson, procs0, conns0, procs, conns, done, notice) && id in procs0 && id !in done
    ensures id in procs && procs[id] == procs0[id]
    ensures Aborted(isJson, procs0, conns0, procs[id := React(isJson, procs[id], Abort(notice))],
                    Broadcast(conns, id, Emitted(isJson, procs[id], Abort(notice))), done + {id}, notice)
  {
    AbortDelivers(conns0, conns, Broadcast(conns, id, Emitted(isJson, procs[id], Abort(notice))), procs0, done, id,
        isJson, notice);
    hide DeliverAll, Emitted, React, Broadcast;
  }

  // Every run has reacted to the abort, and every connection has been told what its run emitted.
  ghost predicate AllAborted(isJson: string -> bool, procs0: map<Id, Proc>, conns0: map<ConnId, Conn>,
                             procs: map<Id, Proc>, conns: map<ConnId, Conn>, notice: string)
  {
    && procs.Keys == procs0.Keys && conns.Keys == conns0.Keys
    && (forall id <- procs0 :: procs[id] == React(isJson, procs0[id], Abort(notice)))
    && (forall c <- conns0 :: conns0[c].run in procs0 &&
          conns[c] == DeliverAll(conns0[c], Emitted(isJson, procs0[conns0[c].run], Abort(notice))))
  }

  lemma AbortedAll(isJson: string -> bool, procs0: map<Id, Proc>, conns0: map<ConnId, Conn>, procs: map<Id, Proc>,
                   conns: map<ConnId, Conn>, ids: set<Id>, notice: string)
    requires Aborted(isJson, procs0, conns0, procs, conns, ids, notice) && StoreOk(procs0, conns0)
    requires forall id :: id in ids <==> id in procs0 && procs0[id].live
    ensures AllAborted(isJson, procs0, conns0, procs, conns, notice)
  {
    RunsKnown(procs0, conns0);
    hide Emitted, React, StoreOk;
    forall id | id in procs0 && !procs0[id].live
      ensures React(isJson, procs0[id], Abort(notice)) == procs0[id] && Emitted(isJson, procs0[id], Abort(notice)) == []
    {
      AbortSettled(isJson, procs0[id], notice);
    }
  }

  lemma AbortSettled(isJson: string -> bool, p: Proc, notice: string)
    requires !p.live
    ensures React(isJson, p, Abort(notice)) == p && Emitted(isJson, p, Abort(notice)) == []
  {
    assert p.run.events + [] == p.run.events;
  }

  lemma AbortDelivers(conns0: map<ConnId, Conn>, conns1: map<ConnId, Conn>, conns2: map<ConnId, Conn>,
                      procs0: map<Id, Proc>,
                      done: set<Id>, id: Id, isJson: string -> bool, notice: string)
    requires conns1.Keys == conns0.Keys && id in procs0 && id !in done && forall d <- done :: d in procs0
    requires conns2 == Broadcast(conns1, id, Emitted(isJson, procs0[id], Abort(notice)))
    requires forall c <- conns0 :: conns1[c] ==
               if conns0[c].run in done
                   then DeliverAll(conns0[c], Emitted(isJson, procs0[conns0[c].run], Abort(notice))) else conns0[c]
    ensures conns2.Keys == conns0.Keys
    ensures forall c <- conns0 :: conns2[c] ==
              if conns0[c].run in done + {id}
                  then DeliverAll(conns0[c], Emitted(isJson, procs0[conns0[c].run], Abort(notice))) else conns0[c]
  {
    forall c | c in conns0 && conns0[c].run in done {
      DeliverKeepsRun(conns0[c], Emitted(isJson, procs0[conns0[c].run], Abort(notice)));
    }
    hide DeliverAll, Emitted;
  }

  lemma NextLine(buf: string, k: nat)
    requires k == FirstNewline(buf) < |buf|
    ensures Complete(buf) == [buf[..k]] + Complete(buf[k + 1..]) && Unfinished(buf) == Unfinished(buf[k + 1..])
  {
    LinesAt(buf, k);
    ConsLast(buf[..k], Lines(buf[k + 1..]));
    hide Lines, FirstNewline;
  }

  lemma LastLine(buf: string)
    requires FirstNewline(buf) == |buf|
    ensures Complete(buf) == [] && Unfinished(buf) == buf
  {
    LinesNone(buf);
    hide Lines;
  }

  lemma OutLinesSnoc(isJson: string -> bool, lines: seq<string>, line: string)
    ensures OutLines(isJson, lines + [line]) == OutLines(isJson, lines) + OutLine(isJson, line)
  {
    OutLinesConcat(isJson, lines, [line]);
    OutLinesOne(isJson, line);
    hide OutLines, OutLine;
  }

  lemma OutLinesNone(isJson: string -> bool)
    ensures OutLines(isJson, []) == []
  {
  }

  lemma OutLinesOne(isJson: string -> bool, line: string)
    ensures OutLines(isJson, [line]) == OutLine(isJson, line)
  {
    var one: seq<string> := [line];
    assert one[1..] == [];
    assert OutLine(isJson, line) + [] == OutLine(isJson, line);
    hide OutLine;
  }

  lemma ClosedRun(isJson: string -> bool, p: Proc, q: Proc, code: Option<int>)
    requires Enabled(p, Close(code)) && !p.active.aborted && q == p.(live := false, closed := true)
    ensures React(isJson, p, Close(code)) ==
            var e := Emitting(q, Emitted(isJson, p, Close(code)));
            e.(run := e.run.(exitCode := code, ended := true, status := FinalStatus(p.active, code)))
  {
    hide Emitted;
  }

  lemma AbortedRun(isJson: string -> bool, p: Proc, q: Proc, notice: string)
    requires p.live && q == p.(live := false, active := p.active.(aborted := true))
    ensures Emitted(isJson, p, Abort(notice)) == [StderrEvent(Daemon, notice), ExitEvent(None), StatusEvent(Failed)]
    ensures React(isJson, p, Abort(notice)) ==
            var e := Emitting(q, Emitted(isJson, p, Abort(notice)));
            e.(run := e.run.(status := Failed, exitCode := None, ended := true))
  {
  }

  lemma CloseEvents(isJson: string -> bool, p: Proc, code: Option<int>, es: seq<RunEvent>, status: Status)
    requires Enabled(p, Close(code)) && !p.active.aborted && status == FinalStatus(p.active, code)
    requires es == [] + OutLine(isJson, p.stdoutBuf)
            + (if p.stderrBuf != "" then [StderrEvent(Child, p.stderrBuf)] else []) +
                   KillReason(p.active) + [ExitEvent(code)] + [StatusEvent(status)]
    ensures es == Emitted(isJson, p, Close(code))
  {
    hide OutLine;
  }
}
