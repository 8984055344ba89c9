// One run of the exec bridge as a reaction to inputs: child output in chunks, timers,
// cancel, abort and close, in any order the runtime allows.
module RunSpec {

  import opened Options
  import opened TextLines

  datatype Status = Pending | Running | Succeeded | Failed
  datatype TimeoutKind = IdleTimeout | HardTimeout

  // The origin of a stderr line is kept here only to tell the child's own lines from notes.
  datatype Origin = Child | Daemon

  datatype RunEvent =
    | StatusEvent(status: Status)
    | ClaudeEvent(data: string)
    | StdoutEvent(line: string)
    | StderrEvent(origin: Origin, line: string)
    | ExitEvent(code: Option<int>)
    | ErrorEvent(message: string)

  datatype Run = Run(status: Status, exitCode: Option<int>, ended: bool, events: seq<RunEvent>)

  // The Active record; the close handler keeps it after the store has dropped it.
  datatype Active = Active(cancelled: bool, timedOut: bool, kind: Option<TimeoutKind>, aborted: bool)

  // `live`: the run id is in the store's active map. `closed`: the close event has fired.
  datatype Proc = Proc(run: Run, spawned: bool, live: bool, closed: bool, active: Active, stdoutBuf: string,
      stderrBuf: string)

  datatype Input =
    | Stdout(chunk: string)
    | Stderr(chunk: string)
    | IdleFires
    | HardFires
    | ChildError(message: string)
    | Cancel
    | Abort(notice: string)
    | Note(line: string)
    | Close(code: Option<int>)

  const FRESH: Run := Run(Pending, None, false, [])
  const IDLE: Active := Active(false, false, None, false)

  // A child that spawned, one that did not, and a run recorded without trying.
  const SPAWNED: Proc := Proc(Run(Running, None, false, [StatusEvent(Running)]), true, true, false, IDLE, "", "")

  function SpawnFailed(message: string): Proc {
    Proc(Run(Failed, None, false, [ErrorEvent("spawn failed: " + message), StatusEvent(Failed)]), false, false, false,
         IDLE, "", "")
  }

  function Recorded(message: string): Proc {
    Proc(Run(Failed, None, true, [ErrorEvent(message), StatusEvent(Failed)]), false, false, false, IDLE, "", "")
  }

  predicate Terminal(e: RunEvent) {
    e == StatusEvent(Succeeded) || e == StatusEvent(Failed)
  }

  // A child emits nothing before it spawns or after it closes.
  predicate Enabled(p: Proc, i: Input) {
    match i
    case Stdout(_) => p.spawned && !p.closed
    case Stderr(_) => p.spawned && !p.closed
    case IdleFires => p.spawned && !p.closed
    case HardFires => p.spawned && !p.closed
    case Close(_) => p.spawned && !p.closed
    case ChildError(_) => p.spawned
    case Cancel => true
    case Abort(_) => true
    case Note(_) => true
  }

  // ---- output lines ----

  function TrimLeft(s: string): string {
    if s != "" && IsSpace(s[0]) then TrimLeft(s[1..]) else s
  }

  function TrimRight(s: string): string {
    if s != "" && IsSpace(s[|s| - 1]) then TrimRight(s[..|s| - 1]) else s
  }

  function Trim(s: string): string {
    TrimRight(TrimLeft(s))
  }

  // A stdout line: nothing when blank, parsed when it is JSON, raw otherwise.
  function OutLine(isJson: string -> bool, line: string): seq<RunEvent> {
    var t := Trim(line);
    if t == "" then [] else if isJson(t) then [ClaudeEvent(t)] else [StdoutEvent(t)]
  }

  function OutLines(isJson: string -> bool, lines: seq<string>): seq<RunEvent> {
    if lines == [] then [] else OutLine(isJson, lines[0]) + OutLines(isJson, lines[1..])
  }

  function ErrLines(lines: seq<string>): (es: seq<RunEvent>)
    ensures |es| == |lines|
  {
    seq(|lines|, i requires 0 <= i < |lines| => StderrEvent(Child, lines[i]))
  }

  function Complete(buf: string): seq<string> {
    Lines(buf)[..|Lines(buf)| - 1]
  }

  function Unfinished(buf: string): string {
    Lines(buf)[|Lines(buf)| - 1]
  }

  // ---- reactions ----

  function KillReason(a: Active): seq<RunEvent> {
    if a.timedOut then [ErrorEvent(if a.kind == Some(HardTimeout) then "run hard-timed out"
        else "run timed out (idle)")]
    else if a.cancelled then [ErrorEvent("run cancelled by operator")]
    else []
  }

  function FinalStatus(a: Active, code: Option<int>): Status {
    if code == Some(0) && !a.cancelled && !a.timedOut then Succeeded else Failed
  }

  // The events one input makes the run emit.
  function Emitted(isJson: string -> bool, p: Proc, i: Input): seq<RunEvent>
    requires Enabled(p, i)
  {
    match i
    case Stdout(chunk) => OutLines(isJson, Complete(p.stdoutBuf + chunk))
    case Stderr(chunk) => ErrLines(Complete(p.stderrBuf + chunk))
    case ChildError(message) => [ErrorEvent(message)]
    case Note(line) => [StderrEvent(Daemon, "[commander] " + line)]
    case Abort(notice) => if p.live then [StderrEvent(Daemon, notice), ExitEvent(None), StatusEvent(Failed)] else []
    case Close(code) =>
      if p.active.aborted then []
      else OutLine(isJson, p.stdoutBuf) + (if p.stderrBuf != "" then [StderrEvent(Child, p.stderrBuf)] else []) +
           KillReason(p.active) + [ExitEvent(code), StatusEvent(FinalStatus(p.active, code))]
    case _ => []
  }

  function React(isJson: string -> bool, p: Proc, i: Input): Proc
    requires Enabled(p, i)
  {
    var q := p.(run := p.run.(events := p.run.events + Emitted(isJson, p, i)));
    match i
    case Stdout(chunk) => q.(stdoutBuf := Unfinished(p.stdoutBuf + chunk))
    case Stderr(chunk) => q.(stderrBuf := Unfinished(p.stderrBuf + chunk))
    case IdleFires => q.(active := p.active.(timedOut := true, kind := Some(IdleTimeout)))
    case HardFires => q.(active := p.active.(timedOut := true, kind := Some(HardTimeout)))
    case Cancel => if p.live then q.(active := p.active.(cancelled := true)) else q
    case Abort(notice) =>
      if p.live then
        q.(live := false, active := p.active.(aborted := true),
            run := q.run.(status := Failed, exitCode := None, ended := true))
      else q
    case Close(code) =>
      if p.active.aborted then q.(live := false, closed := true)
      else q.(live := false, closed := true,
          run := q.run.(status := FinalStatus(p.active, code), exitCode := code, ended := true))
    case _ => q
  }

  ghost predicate Runs(isJson: string -> bool, p: Proc, inputs: seq<Input>)
    decreases |inputs|, 0
  {
    inputs == [] || (Runs(isJson, p, inputs[..|inputs| - 1])
        && Enabled(After(isJson, p, inputs[..|inputs| - 1]), inputs[|inputs| - 1]))
  }

  ghost function After(isJson: string -> bool, p: Proc, inputs: seq<Input>): Proc
    requires Runs(isJson, p, inputs)
    decreases |inputs|, 1
  {
    if inputs == [] then p
    else React(isJson, After(isJson, p, inputs[..|inputs| - 1]), inputs[|inputs| - 1])
  }

  lemma {:induction false} OutLinesConcat(isJson: string -> bool, a: seq<string>, b: seq<string>)
    ensures OutLines(isJson, a + b) == OutLines(isJson, a) + OutLines(isJson, b)
  {
    hide OutLine;
    if a == [] {
      assert a + b == b;
    } else {
      OutLinesConcat(isJson, a[1..], b);
      assert (a + b)[1..] == a[1..] + b && (a + b)[0] == a[0];
      Assoc(OutLine(isJson, a[0]), OutLines(isJson, a[1..]), OutLines(isJson, b));
    }
  }

  // ---- exactly one terminal status ----

  function TerminalCount(es: seq<RunEvent>): nat {
    if es == [] then 0
    else TerminalCount(es[..|es| - 1]) + if Terminal(es[|es| - 1]) then 1 else 0
  }

  lemma {:induction false} TerminalConcat(a: seq<RunEvent>, b: seq<RunEvent>)
    ensures TerminalCount(a + b) == TerminalCount(a) + TerminalCount(b)
  {
    if b == [] {
      assert a + b == a;
    } else {
      var n := |b| - 1;
      TerminalConcat(a, b[..n]);
      assert (a + b)[..|a| + n] == a + b[..n];
    }
  }

  lemma {:induction false} NoTerminal(es: seq<RunEvent>)
    requires forall e <- es :: !Terminal(e)
    ensures TerminalCount(es) == 0
  {
    if es != [] {
      NoTerminal(es[..|es| - 1]);
    }
  }

  lemma {:induction false} OutLinesQuiet(isJson: string -> bool, lines: seq<string>)
    ensures forall e <- OutLines(isJson, lines) :: !Terminal(e) && !e.StderrEvent? && !e.ExitEvent?
  {
    if lines != [] {
      OutLinesQuiet(isJson, lines[1..]);
      hide Trim;
    }
  }

  // An input settles the run at most once, as the last thing it emits.
  predicate Settles(p: Proc, i: Input) {
    (i.Abort? && p.live) || (i.Close? && !p.active.aborted)
  }

  lemma EmittedTerminals(isJson: string -> bool, p: Proc, i: Input)
    requires Enabled(p, i)
    ensures var es := Emitted(isJson, p, i);
            && TerminalCount(es) == (if Settles(p, i) then 1 else 0)
            && (Settles(p, i) ==>
                  && |es| >= 2 && es[|es| - 1] == StatusEvent(React(isJson, p, i).run.status)
                  && es[|es| - 2] == ExitEvent(React(isJson, p, i).run.exitCode))
  {
    if Settles(p, i) {
      SettlingEvents(isJson, p, i);
    } else {
      QuietEvents(isJson, p, i);
      NoTerminal(Emitted(isJson, p, i));
    }
  }

  lemma QuietEvents(isJson: string -> bool, p: Proc, i: Input)
    requires Enabled(p, i) && !Settles(p, i)
    ensures forall e <- Emitted(isJson, p, i) :: !Terminal(e)
  {
    if i.Stdout? {
      OutLinesQuiet(isJson, Complete(p.stdoutBuf + i.chunk));
    }
    hide OutLines, Complete, OutLine;
  }

  lemma SettlingEvents(isJson: string -> bool, p: Proc, i: Input)
    requires Enabled(p, i) && Settles(p, i)
    ensures var es := Emitted(isJson, p, i);
            && TerminalCount(es) == 1 && |es| >= 2 && es[|es| - 1] == StatusEvent(React(isJson, p, i).run.status)
            && es[|es| - 2] == ExitEvent(React(isJson, p, i).run.exitCode)
  {
    var es := Emitted(isJson, p, i);
    var head := es[..|es| - 1];
    OutLineQuiet(isJson, p.stdoutBuf);
    hide OutLine, OutLines, Complete;
    assert forall e <- head :: !Terminal(e);
    NoTerminal(head);
  }

  lemma OutLineQuiet(isJson: string -> bool, line: string)
    ensures forall e <- OutLine(isJson, line) :: !Terminal(e) && !e.StderrEvent? && !e.ExitEvent?
  {
    hide Trim;
  }

  ghost predicate Inv(p: Proc) {
    // in the active map exactly while running
    && (p.live <==> p.run.status == Running)
    && p.run.status != Pending
    // settled exactly once, and the record says how
    && TerminalCount(p.run.events) == (if p.live then 0 else 1)
    && (p.live ==> p.spawned && !p.closed && !p.active.aborted)
    && (p.spawned && !p.live ==> p.closed || p.active.aborted)
    && (p.run.status == Succeeded ==>
          p.spawned && p.closed && p.run.exitCode == Some(0) && !p.active.cancelled && !p.active.timedOut
              && !p.active.aborted)
    && (p.closed && !p.active.aborted ==> p.run.status == FinalStatus(p.active, p.run.exitCode))
  }

  lemma ReactKeeps(isJson: string -> bool, p: Proc, i: Input)
    requires Inv(p) && Enabled(p, i)
    ensures Inv(React(isJson, p, i))
  {
    EmittedTerminals(isJson, p, i);
    TerminalConcat(p.run.events, Emitted(isJson, p, i));
    hide Emitted, TerminalCount;
  }

  ghost predicate IsStart(p: Proc) {
    p == SPAWNED || (exists m :: p == SpawnFailed(m)) || (exists m :: p == Recorded(m))
  }

  lemma StartInv(p: Proc)
    requires IsStart(p)
    ensures Inv(p)
  {
    var two: seq<RunEvent> := p.run.events;
    if |two| == 2 {
      assert two[..1][..0] == [];
      assert TerminalCount(two[..1]) == 0;
    } else {
      assert two[..0] == [];
    }
  }

  lemma {:induction false} RunInv(isJson: string -> bool, p: Proc, inputs: seq<Input>)
    requires IsStart(p) && Runs(isJson, p, inputs)
    ensures Inv(After(isJson, p, inputs))
  {
    if inputs == [] {
      StartInv(p);
    } else {
      var n := |inputs| - 1;
      RunInv(isJson, p, inputs[..n]);
      ReactKeeps(isJson, After(isJson, p, inputs[..n]), inputs[n]);
    }
  }

  // Every run, at every moment: active exactly while running, one terminal status exactly
  // when it is not, and success only for a clean exit that nothing cut short.
  lemma RunLifecycle(isJson: string -> bool, p: Proc, inputs: seq<Input>)
    requires IsStart(p) && Runs(isJson, p, inputs)
    ensures var q := After(isJson, p, inputs);
            && (q.live <==> q.run.status == Running)
            && TerminalCount(q.run.events) == (if q.live then 0 else 1)
            && (q.run.status == Succeeded <==>
                  q.closed && q.run.exitCode == Some(0) && !q.active.cancelled && !q.active.timedOut
                      && !q.active.aborted)
  {
    RunInv(isJson, p, inputs);
  }
}
