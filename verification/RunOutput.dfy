// What the child wrote and what the run's events say it wrote, whatever the chunking.
module RunOutput {

  import opened Options
  import opened TextLines
  import opened RunSpec

  // ---- the raw streams ----

  function StderrText(inputs: seq<Input>): string {
    if inputs == [] then ""
    else
      var i := inputs[|inputs| - 1];
      StderrText(inputs[..|inputs| - 1]) + if i.Stderr? then i.chunk else ""
  }

  function StdoutText(inputs: seq<Input>): string {
    if inputs == [] then ""
    else
      var i := inputs[|inputs| - 1];
      StdoutText(inputs[..|inputs| - 1]) + if i.Stdout? then i.chunk else ""
  }

  // ---- the events that carry them ----

  predicate FromStderr(e: RunEvent) {
    e.StderrEvent? && e.origin == Child
  }

  predicate FromStdout(e: RunEvent) {
    e.ClaudeEvent? || e.StdoutEvent?
  }

  function Only(which: RunEvent -> bool, es: seq<RunEvent>): seq<RunEvent> {
    if es == [] then []
    else Only(which, es[..|es| - 1]) + if which(es[|es| - 1]) then [es[|es| - 1]] else []
  }

  lemma {:induction false} OnlyConcat(which: RunEvent -> bool, a: seq<RunEvent>, b: seq<RunEvent>)
    ensures Only(which, a + b) == Only(which, a) + Only(which, b)
  {
    if b == [] {
      assert a + b == a;
    } else {
      var n := |b| - 1;
      OnlyConcat(which, a, b[..n]);
      assert (a + b)[..|a| + n] == a + b[..n] && (a + b)[|a| + n] == b[n];
      Assoc(Only(which, a), Only(which, b[..n]), if which(b[n]) then [b[n]] else []);
    }
  }

  lemma OnlyFour(which: RunEvent -> bool, a: seq<RunEvent>, b: seq<RunEvent>, c: seq<RunEvent>, d: seq<RunEvent>)
    ensures Only(which, a + b + c + d) == Only(which, a) + Only(which, b) + Only(which, c) + Only(which, d)
  {
    OnlyConcat(which, a, b);
    OnlyConcat(which, a + b, c);
    OnlyConcat(which, a + b + c, d);
    hide Only;
  }

  lemma {:induction false} OnlyAll(which: RunEvent -> bool, es: seq<RunEvent>)
    requires forall e <- es :: which(e)
    ensures Only(which, es) == es
  {
    if es != [] {
      var n := |es| - 1;
      OnlyAll(which, es[..n]);
      assert es[n] in es && es == es[..n] + [es[n]];
    }
  }

  lemma {:induction false} OnlyNone(which: RunEvent -> bool, es: seq<RunEvent>)
    requires forall e <- es :: !which(e)
    ensures Only(which, es) == []
  {
    if es != [] {
      OnlyNone(which, es[..|es| - 1]);
    }
  }

  lemma {:induction false} OutLinesFromStdout(isJson: string -> bool, lines: seq<string>)
    ensures forall e <- OutLines(isJson, lines) :: FromStdout(e)
  {
    if lines != [] {
      OutLinesFromStdout(isJson, lines[1..]);
      hide Trim;
    }
  }

  lemma ErrLinesConcat(a: seq<string>, b: seq<string>)
    ensures ErrLines(a + b) == ErrLines(a) + ErrLines(b)
  {
  }

  // One more chunk: the finished lines grow by the lines it finishes.
  lemma MoreText(x: string, y: string)
    ensures Complete(x + y) == Complete(x) + Complete(Unfinished(x) + y)
    ensures Unfinished(x + y) == Unfinished(Unfinished(x) + y)
  {
    LinesSplit(x, y);
    var ls, ms := Lines(x), Lines(Unfinished(x) + y);
    assert (ls[..|ls| - 1] + ms)[..|ls| - 1 + |ms| - 1] == ls[..|ls| - 1] + ms[..|ms| - 1];
    hide Lines;
  }

  // ---- stderr ----

  // What the child's stderr events hold while the child is open, and once it has closed.
  function StderrExpected(text: string, closed: bool): seq<RunEvent> {
    if closed && Unfinished(text) != "" then ErrLines(Complete(text)) + [StderrEvent(Child, Unfinished(text))]
    else ErrLines(Complete(text))
  }

  ghost predicate StderrOk(p: Proc, text: string) {
    && (!p.closed ==> p.stderrBuf == Unfinished(text))
    && (!p.closed || !p.active.aborted ==> Only(FromStderr, p.run.events) == StderrExpected(text, p.closed))
  }

  lemma EmittedStderr(isJson: string -> bool, p: Proc, i: Input)
    requires Enabled(p, i)
    ensures Only(FromStderr, Emitted(isJson, p, i)) ==
            match i
            case Stderr(chunk) => ErrLines(Complete(p.stderrBuf + chunk))
            case Close(_) => if !p.active.aborted && p.stderrBuf != "" then [StderrEvent(Child, p.stderrBuf)] else []
            case _ => []
  {
    var es := Emitted(isJson, p, i);
    match i
    case Stderr(chunk) => OnlyAll(FromStderr, es);
    case Stdout(chunk) =>
      OutLinesQuiet(isJson, Complete(p.stdoutBuf + chunk));
      OnlyNone(FromStderr, es);
    case Close(code) =>
      if p.active.aborted {
        OnlyNone(FromStderr, es);
      } else {
        CloseStderr(isJson, p, code);
      }
    case _ => OnlyNone(FromStderr, es);
  }

  // What a close emits, part by part.
  function LastErr(p: Proc): seq<RunEvent> {
    if p.stderrBuf != "" then [StderrEvent(Child, p.stderrBuf)] else []
  }

  lemma CloseParts(isJson: string -> bool, p: Proc, code: Option<int>)
    requires Enabled(p, Close(code)) && !p.active.aborted
    ensures Emitted(isJson, p, Close(code)) ==
            OutLine(isJson, p.stdoutBuf) + LastErr(p) + KillReason(p.active)
            + [ExitEvent(code), StatusEvent(FinalStatus(p.active, code))]
  {
    hide OutLine, KillReason, FinalStatus;
  }

  lemma EndQuiet(p: Proc, code: Option<int>)
    ensures Only(FromStderr, KillReason(p.active)) == [] && Only(FromStdout, KillReason(p.active)) == []
    ensures Only(FromStderr, [ExitEvent(code), StatusEvent(FinalStatus(p.active, code))]) == []
    ensures Only(FromStdout, [ExitEvent(code), StatusEvent(FinalStatus(p.active, code))]) == []
  {
    var why, end := KillReason(p.active), [ExitEvent(code), StatusEvent(FinalStatus(p.active, code))];
    OnlyNone(FromStderr, why);
    OnlyNone(FromStdout, why);
    OnlyNone(FromStderr, end);
    OnlyNone(FromStdout, end);
    hide Only;
  }

  lemma LastErrFrom(p: Proc)
    ensures Only(FromStderr, LastErr(p)) == LastErr(p) && Only(FromStdout, LastErr(p)) == []
  {
    OnlyAll(FromStderr, LastErr(p));
    OnlyNone(FromStdout, LastErr(p));
    hide Only;
  }

  lemma LastOutFrom(isJson: string -> bool, line: string)
    ensures Only(FromStdout, OutLine(isJson, line)) == OutLine(isJson, line)
    ensures Only(FromStderr, OutLine(isJson, line)) == []
  {
    OutLineFromStdout(isJson, line);
    OutLineQuiet(isJson, line);
    hide OutLine, Only;
    OnlyAll(FromStdout, OutLine(isJson, line));
    OnlyNone(FromStderr, OutLine(isJson, line));
  }

  lemma CloseStderr(isJson: string -> bool, p: Proc, code: Option<int>)
    requires Enabled(p, Close(code)) && !p.active.aborted
    ensures Only(FromStderr, Emitted(isJson, p, Close(code))) == LastErr(p)
  {
    hide OutLine, KillReason, FinalStatus, Only, Emitted, LastErr;
    CloseParts(isJson, p, code);
    EndQuiet(p, code);
    LastErrFrom(p);
    LastOutFrom(isJson, p.stdoutBuf);
    OnlyFour(FromStderr, OutLine(isJson, p.stdoutBuf), LastErr(p), KillReason(p.active),
             [ExitEvent(code), StatusEvent(FinalStatus(p.active, code))]);
    Empties(LastErr(p));
  }

  lemma Empties(es: seq<RunEvent>)
    ensures [] + es + [] + [] == es && es + [] + [] + [] == es
  {
  }

  lemma StderrStep(isJson: string -> bool, p: Proc, i: Input, text: string)
    requires Enabled(p, i) && StderrOk(p, text)
    ensures StderrOk(React(isJson, p, i), text + if i.Stderr? then i.chunk else "")
  {
    EmittedStderr(isJson, p, i);
    OnlyConcat(FromStderr, p.run.events, Emitted(isJson, p, i));
    assert text + "" == text;
    if i.Stderr? {
      MoreText(text, i.chunk);
      ErrLinesConcat(Complete(text), Complete(p.stderrBuf + i.chunk));
    }
    hide Emitted, ErrLines, Complete, Unfinished, Only;
  }

  // The stderr events are the lines of everything the child wrote to stderr, with the
  // unfinished last line added when the child closes (an aborted run drops that one).
  lemma {:induction false} StderrReassembles(isJson: string -> bool, inputs: seq<Input>)
    requires Runs(isJson, SPAWNED, inputs)
    ensures StderrOk(After(isJson, SPAWNED, inputs), StderrText(inputs))
  {
    if inputs == [] {
      assert Lines("") == [""];
      OnlyNone(FromStderr, SPAWNED.run.events);
    } else {
      var n := |inputs| - 1;
      StderrReassembles(isJson, inputs[..n]);
      StderrStep(isJson, After(isJson, SPAWNED, inputs[..n]), inputs[n], StderrText(inputs[..n]));
      hide StderrOk;
    }
  }

  // Joining the lines gives the text back.
  function Rejoined(lines: seq<string>): string {
    if lines == [] then "" else lines[0] + "\n" + Rejoined(lines[1..])
  }

  lemma CutAtNewline(text: string, k: nat)
    requires k < |text| && text[k] == '\n'
    ensures text == text[..k] + "\n" + text[k + 1..]
  {
  }

  lemma RejoinNone(text: string)
    ensures Rejoined([text][..0]) + [text][0] == text
  {
    assert [text][..0] == [] && "" + text == text;
  }

  lemma {:induction false} LinesRejoin(text: string)
    ensures text == Rejoined(Complete(text)) + Unfinished(text)
    decreases |text|
  {
    hide Lines, Rejoined;
    var k := FirstNewline(text);
    if k == |text| {
      LinesNone(text);
      RejoinNone(text);
    } else {
      var tail := text[k + 1..];
      LinesRejoin(tail);
      LinesAt(text, k);
      CutAtNewline(text, k);
      RejoinCons(text[..k], Lines(tail), tail);
    }
  }

  lemma RejoinCons(line: string, ts: seq<string>, tail: string)
    requires |ts| > 0 && tail == Rejoined(ts[..|ts| - 1]) + ts[|ts| - 1]
    ensures var ls := [line] + ts;
            line + "\n" + tail == Rejoined(ls[..|ls| - 1]) + ls[|ls| - 1]
  {
    ConsLast(line, ts);
    var init := [line] + ts[..|ts| - 1];
    assert init[1..] == ts[..|ts| - 1];
    Assoc(line + "\n", Rejoined(init[1..]), ts[|ts| - 1]);
  }

  // ---- stdout ----

  function StdoutExpected(isJson: string -> bool, text: string, closed: bool): seq<RunEvent> {
    if closed then OutLines(isJson, Complete(text)) + OutLine(isJson, Unfinished(text))
        else OutLines(isJson, Complete(text))
  }

  ghost predicate StdoutOk(isJson: string -> bool, p: Proc, text: string) {
    && (!p.closed ==> p.stdoutBuf == Unfinished(text))
    && (!p.closed || !p.active.aborted ==> Only(FromStdout, p.run.events) == StdoutExpected(isJson, text, p.closed))
  }

  lemma OutLineFromStdout(isJson: string -> bool, line: string)
    ensures forall e <- OutLine(isJson, line) :: FromStdout(e)
  {
    hide Trim;
  }

  lemma CloseStdout(isJson: string -> bool, p: Proc, code: Option<int>)
    requires Enabled(p, Close(code)) && !p.active.aborted
    ensures Only(FromStdout, Emitted(isJson, p, Close(code))) == OutLine(isJson, p.stdoutBuf)
  {
    hide OutLine, KillReason, FinalStatus, Only, Emitted, LastErr;
    CloseParts(isJson, p, code);
    EndQuiet(p, code);
    LastErrFrom(p);
    LastOutFrom(isJson, p.stdoutBuf);
    OnlyFour(FromStdout, OutLine(isJson, p.stdoutBuf), LastErr(p), KillReason(p.active),
             [ExitEvent(code), StatusEvent(FinalStatus(p.active, code))]);
    Empties(OutLine(isJson, p.stdoutBuf));
  }

  lemma EmittedStdout(isJson: string -> bool, p: Proc, i: Input)
    requires Enabled(p, i)
    ensures Only(FromStdout, Emitted(isJson, p, i)) ==
            match i
            case Stdout(chunk) => OutLines(isJson, Complete(p.stdoutBuf + chunk))
            case Close(_) => if !p.active.aborted then OutLine(isJson, p.stdoutBuf) else []
            case _ => []
  {
    var es := Emitted(isJson, p, i);
    match i
    case Stdout(chunk) =>
      OutLinesFromStdout(isJson, Complete(p.stdoutBuf + chunk));
      OnlyAll(FromStdout, es);
    case Close(code) =>
      if p.active.aborted {
        OnlyNone(FromStdout, es);
      } else {
        CloseStdout(isJson, p, code);
      }
    case _ => OnlyNone(FromStdout, es);
  }

  lemma StdoutStep(isJson: string -> bool, p: Proc, i: Input, text: string)
    requires Enabled(p, i) && StdoutOk(isJson, p, text)
    ensures StdoutOk(isJson, React(isJson, p, i), text + if i.Stdout? then i.chunk else "")
  {
    EmittedStdout(isJson, p, i);
    OnlyConcat(FromStdout, p.run.events, Emitted(isJson, p, i));
    assert text + "" == text;
    if i.Stdout? {
      MoreText(text, i.chunk);
      OutLinesConcat(isJson, Complete(text), Complete(p.stdoutBuf + i.chunk));
    }
    hide Emitted, OutLines, OutLine, Complete, Unfinished, Only;
  }

  // The same for stdout: one event per non-blank line, parsed or raw.
  lemma {:induction false} StdoutReassembles(isJson: string -> bool, inputs: seq<Input>)
    requires Runs(isJson, SPAWNED, inputs)
    ensures StdoutOk(isJson, After(isJson, SPAWNED, inputs), StdoutText(inputs))
  {
    if inputs == [] {
      assert Lines("") == [""];
      OnlyNone(FromStdout, SPAWNED.run.events);
    } else {
      var n := |inputs| - 1;
      StdoutReassembles(isJson, inputs[..n]);
      StdoutStep(isJson, After(isJson, SPAWNED, inputs[..n]), inputs[n], StdoutText(inputs[..n]));
      hide StdoutOk;
    }
  }
}
