// How a run begins and ends, read off what happened to it: the events a reader of the list sees
// first and last.
module RunEnds {

  import opened Options
  import opened RunSpec

  // ---- what happened to the run so far ----

  predicate WasCancelled(inputs: seq<Input>) {
    exists i <- inputs :: i.Cancel?
  }

  function LastTimer(inputs: seq<Input>): Option<TimeoutKind> {
    if inputs == [] then None
    else
      match inputs[|inputs| - 1]
      case IdleFires => Some(IdleTimeout)
      case HardFires => Some(HardTimeout)
      case _ => LastTimer(inputs[..|inputs| - 1])
  }

  // The line that says why a run was killed: a timer, the last one to fire, before an operator.
  function Why(inputs: seq<Input>): seq<RunEvent> {
    if LastTimer(inputs) == Some(HardTimeout) then [ErrorEvent("run hard-timed out")]
    else if LastTimer(inputs) == Some(IdleTimeout) then [ErrorEvent("run timed out (idle)")]
    else if WasCancelled(inputs) then [ErrorEvent("run cancelled by operator")]
    else []
  }

  predicate NoAbort(inputs: seq<Input>) {
    forall i <- inputs :: !i.Abort?
  }

  ghost predicate Marked(p: Proc, inputs: seq<Input>) {
    && p.live && !p.active.aborted && p.active.kind == LastTimer(inputs)
    && (p.active.timedOut <==> LastTimer(inputs).Some?) && (p.active.cancelled <==> WasCancelled(inputs))
  }

  lemma LastInput(inputs: seq<Input>)
    requires inputs != []
    ensures var n := |inputs| - 1;
            && (WasCancelled(inputs) <==> WasCancelled(inputs[..n]) || inputs[n].Cancel?)
            && (NoAbort(inputs) <==> NoAbort(inputs[..n]) && !inputs[n].Abort?)
  {
    assert inputs == inputs[..|inputs| - 1] + [inputs[|inputs| - 1]];
  }

  lemma {:induction false} RunMarked(isJson: string -> bool, inputs: seq<Input>)
    requires Runs(isJson, SPAWNED, inputs) && NoAbort(inputs) && !After(isJson, SPAWNED, inputs).closed
    ensures Marked(After(isJson, SPAWNED, inputs), inputs)
  {
    if inputs != [] {
      LastInput(inputs);
      RunMarked(isJson, inputs[..|inputs| - 1]);
      hide WasCancelled, NoAbort, Emitted;
    }
  }

  // The child's own last words: output that had no line end.
  predicate IsOutput(e: RunEvent) {
    e.ClaudeEvent? || e.StdoutEvent? || (e.StderrEvent? && e.origin == Child)
  }

  // Stdout before stderr.
  function LastWords(isJson: string -> bool, p: Proc): (es: seq<RunEvent>)
    ensures |es| <= 2 && (forall e <- es :: IsOutput(e)) && (|es| == 2 ==> !es[0].StderrEvent? && es[1].StderrEvent?)
  {
    OutLine(isJson, p.stdoutBuf) + if p.stderrBuf != "" then [StderrEvent(Child, p.stderrBuf)] else []
  }

  lemma WhyIs(p: Proc, inputs: seq<Input>, code: Option<int>)
    requires Marked(p, inputs)
    ensures KillReason(p.active) == Why(inputs)
    ensures FinalStatus(p.active, code) == if code == Some(0) && Why(inputs) == [] then Succeeded else Failed
  {
    var timer := LastTimer(inputs);
    assert timer.Some? ==> timer.value == IdleTimeout || timer.value == HardTimeout;
    assert |Why(inputs)| == |KillReason(p.active)|;
    hide WasCancelled, LastTimer;
  }

  lemma CloseReacts(isJson: string -> bool, p: Proc, code: Option<int>)
    requires Enabled(p, Close(code)) && !p.active.aborted
    ensures var q, how := React(isJson, p, Close(code)), FinalStatus(p.active, code);
            && q.run.events == p.run.events
               + (LastWords(isJson, p) + KillReason(p.active) + [ExitEvent(code), StatusEvent(how)])
            && q.run.status == how && q.run.exitCode == code && q.run.ended && !q.live
  {
    hide OutLine, KillReason, FinalStatus;
  }

  // A run the child closes says, after its last output, why it was killed if it was, then its exit
  // code, then how it ended: succeeded for exit code 0 unless it was killed, failed otherwise.
  lemma CloseTells(isJson: string -> bool, inputs: seq<Input>, code: Option<int>)
      returns (last: seq<RunEvent>)
    requires Runs(isJson, SPAWNED, inputs) && NoAbort(inputs)
    requires Enabled(After(isJson, SPAWNED, inputs), Close(code))
    ensures forall e <- last :: IsOutput(e)
    ensures |last| <= 2 && (|last| == 2 ==> !last[0].StderrEvent? && last[1].StderrEvent?)
    ensures var p := After(isJson, SPAWNED, inputs);
            var q := React(isJson, p, Close(code));
            var how := if code == Some(0) && Why(inputs) == [] then Succeeded else Failed;
            && q.run.events == p.run.events + (last + Why(inputs) + [ExitEvent(code), StatusEvent(how)])
            && q.run.status == how && q.run.exitCode == code && q.run.ended && !q.live
  {
    var p := After(isJson, SPAWNED, inputs);
    RunMarked(isJson, inputs);
    WhyIs(p, inputs, code);
    CloseReacts(isJson, p, code);
    last := LastWords(isJson, p);
    hide Emitted, React, Why, KillReason, FinalStatus, LastWords, Runs, After;
  }

  // A live run that is aborted says so, with no exit code, as failed; whatever comes after adds no
  // output, exit or status, the close of its child included.
  lemma AbortTells(isJson: string -> bool, p: Proc, notice: string, i: Input)
    requires p.live
    ensures var q := React(isJson, p, Abort(notice));
            && q.run.events == p.run.events + [StderrEvent(Daemon, notice), ExitEvent(None), StatusEvent(Failed)]
            && q.run.status == Failed && q.run.exitCode == None && q.run.ended && !q.live
            && (Enabled(q, i) && (i.Close? || i.Abort? || i.Cancel?) ==> React(isJson, q, i).run == q.run)
  {
    var q := React(isJson, p, Abort(notice));
    assert q.run.events + [] == q.run.events;
  }

  // A note and an error of the child are one event each; a timer and a cancel only mark the run,
  // which goes on until its child closes.
  lemma OthersTell(isJson: string -> bool, p: Proc, i: Input)
    requires Enabled(p, i) && (i.Note? || i.ChildError? || i.IdleFires? || i.HardFires? || i.Cancel?)
    ensures var q := React(isJson, p, i);
            && q.run == p.run.(events := p.run.events + match i
                                                        case Note(line) => [StderrEvent(Daemon, "[commander] " + line)]
                                                        case ChildError(message) => [ErrorEvent(message)]
                                                        case _ => [])
            && q.live == p.live && q.closed == p.closed && q.stdoutBuf == p.stdoutBuf && q.stderrBuf == p.stderrBuf
  {
  }

  // ---- beginnings ----

  lemma ReactAdds(isJson: string -> bool, p: Proc, i: Input)
    requires Enabled(p, i)
    ensures p.run.events <= React(isJson, p, i).run.events
  {
    assert React(isJson, p, i).run.events == p.run.events + Emitted(isJson, p, i);
    hide Emitted;
  }

  lemma {:induction false} EventsKept(isJson: string -> bool, p: Proc, inputs: seq<Input>)
    requires Runs(isJson, p, inputs)
    ensures p.run.events <= After(isJson, p, inputs).run.events
  {
    if inputs != [] {
      var n := |inputs| - 1;
      EventsKept(isJson, p, inputs[..n]);
      ReactAdds(isJson, After(isJson, p, inputs[..n]), inputs[n]);
      hide React;
    }
  }

  // A run says first that it runs; or, when its child could not be spawned, the error and that it
  // failed, and so does one that is recorded as failed without trying.
  lemma BeginsWith(isJson: string -> bool, p: Proc, inputs: seq<Input>)
    requires IsStart(p) && Runs(isJson, p, inputs)
    ensures var es := After(isJson, p, inputs).run.events;
            && (p.spawned ==> [StatusEvent(Running)] <= es)
            && (forall m :: p == SpawnFailed(m) ==> [ErrorEvent("spawn failed: " + m), StatusEvent(Failed)] <= es)
            && (forall m :: p == Recorded(m) ==> [ErrorEvent(m), StatusEvent(Failed)] <= es)
  {
    EventsKept(isJson, p, inputs);
  }
}
