// Which events the lines of the child become, said line by line.
module RunLines {

  import opened Options
  import opened TextLines
  import opened RunSpec
  import opened RunOutput

  // ---- trimming ----

  predicate AllSpace(s: string) {
    forall i :: 0 <= i < |s| ==> IsSpace(s[i])
  }

  predicate NoOuterSpace(t: string) {
    t != "" && !IsSpace(t[0]) && !IsSpace(t[|t| - 1])
  }

  // t stands in the line between white space.
  predicate Framed(line: string, a: string, t: string, b: string) {
    line == a + t + b && AllSpace(a) && AllSpace(b)
  }

  lemma {:induction false} TrimLeftIs(s: string) returns (a: string)
    ensures AllSpace(a) && s == a + TrimLeft(s) && (TrimLeft(s) != "" ==> !IsSpace(TrimLeft(s)[0]))
  {
    if s != "" && IsSpace(s[0]) {
      a := TrimLeftIs(s[1..]);
      assert s == [s[0]] + s[1..];
      a := [s[0]] + a;
    } else {
      a := "";
    }
  }

  lemma {:induction false} TrimRightIs(s: string) returns (b: string)
    ensures AllSpace(b) && s == TrimRight(s) + b
    ensures TrimRight(s) != "" ==> !IsSpace(TrimRight(s)[|TrimRight(s)| - 1]) && TrimRight(s)[0] == s[0]
  {
    if s != "" && IsSpace(s[|s| - 1]) {
      b := TrimRightIs(s[..|s| - 1]);
      assert s == s[..|s| - 1] + [s[|s| - 1]];
      b := b + [s[|s| - 1]];
    } else {
      b := "";
    }
  }

  lemma TrimFrames(line: string) returns (a: string, b: string)
    ensures Framed(line, a, Trim(line), b)
    ensures Trim(line) == "" || NoOuterSpace(Trim(line))
  {
    a := TrimLeftIs(line);
    b := TrimRightIs(TrimLeft(line));
    assert line == a + (Trim(line) + b);
  }

  lemma FramedInside(a: string, t: string, b: string, c: string, u: string, d: string)
    requires AllSpace(a) && AllSpace(b) && NoOuterSpace(u) && a + t + b == c + u + d
    ensures |a| <= |c| && |c| + |u| <= |a| + |t|
  {
    var s := c + u + d;
    assert s[|c|] == u[0] && s[|c| + |u| - 1] == u[|u| - 1];
    assert forall i :: 0 <= i < |a| ==> IsSpace((a + t + b)[i]);
    assert forall i :: |a| + |t| <= i < |s| ==> IsSpace((a + t + b)[i]);
    hide IsSpace;
  }

  lemma FramedOnce(a: string, t: string, b: string, c: string, u: string, d: string)
    requires NoOuterSpace(t) && AllSpace(a) && AllSpace(b) && AllSpace(c) && AllSpace(d)
    requires NoOuterSpace(u) && a + t + b == c + u + d
    ensures t == u
  {
    FramedInside(a, t, b, c, u, d);
    FramedInside(c, u, d, a, t, b);
    assert (a + t + b)[|a|..|a| + |t|] == t && (c + u + d)[|c|..|c| + |u|] == u;
    hide IsSpace;
  }

  lemma BlankIff(line: string)
    ensures Trim(line) == "" <==> AllSpace(line)
  {
    var a, b := TrimFrames(line);
    if Trim(line) != "" {
      assert line[|a|] == Trim(line)[0];
    }
  }

  // ---- stdout ----

  // The event of a line that is not blank: the text between its outer white space, as parsed when
  // that is JSON and raw otherwise.
  ghost predicate Carries(isJson: string -> bool, line: string, e: RunEvent) {
    exists a, t, b ::
      && Framed(line, a, t, b) && NoOuterSpace(t)
      && ((isJson(t) && e == ClaudeEvent(t)) || (!isJson(t) && e == StdoutEvent(t)))
  }

  // One event per line that is not blank, in order.
  ghost predicate Relays(isJson: string -> bool, lines: seq<string>, es: seq<RunEvent>) {
    if lines == [] then es == []
    else
      var n := |lines| - 1;
      if AllSpace(lines[n]) then Relays(isJson, lines[..n], es)
      else es != [] && Carries(isJson, lines[n], es[|es| - 1]) && Relays(isJson, lines[..n], es[..|es| - 1])
  }

  lemma OutLineCarries(isJson: string -> bool, line: string)
    ensures AllSpace(line) ==> OutLine(isJson, line) == []
    ensures !AllSpace(line) ==> |OutLine(isJson, line)| == 1 && Carries(isJson, line, OutLine(isJson, line)[0])
  {
    BlankIff(line);
    var a, b := TrimFrames(line);
    hide Trim, Framed, AllSpace, NoOuterSpace;
  }

  lemma CarriesOnce(isJson: string -> bool, line: string, e: RunEvent, f: RunEvent)
    requires Carries(isJson, line, e) && Carries(isJson, line, f)
    ensures e == f
  {
    var a, t, b :| Framed(line, a, t, b) && NoOuterSpace(t)
                   && ((isJson(t) && e == ClaudeEvent(t)) || (!isJson(t) && e == StdoutEvent(t)));
    var c, u, d :| Framed(line, c, u, d) && NoOuterSpace(u)
                   && ((isJson(u) && f == ClaudeEvent(u)) || (!isJson(u) && f == StdoutEvent(u)));
    FramedOnce(a, t, b, c, u, d);
  }

  // That leaves no choice.
  lemma {:induction false} RelaysOnce(isJson: string -> bool, lines: seq<string>, es: seq<RunEvent>, fs: seq<RunEvent>)
    requires Relays(isJson, lines, es) && Relays(isJson, lines, fs)
    ensures es == fs
  {
    if lines != [] {
      var n := |lines| - 1;
      if AllSpace(lines[n]) {
        RelaysOnce(isJson, lines[..n], es, fs);
      } else {
        RelaysOnce(isJson, lines[..n], es[..|es| - 1], fs[..|fs| - 1]);
        CarriesOnce(isJson, lines[n], es[|es| - 1], fs[|fs| - 1]);
        assert es == es[..|es| - 1] + [es[|es| - 1]] && fs == fs[..|fs| - 1] + [fs[|fs| - 1]];
      }
      hide Carries;
    }
  }

  lemma OutLinesPush(isJson: string -> bool, lines: seq<string>, line: string)
    ensures OutLines(isJson, lines + [line]) == OutLines(isJson, lines) + OutLine(isJson, line)
  {
    OutLinesConcat(isJson, lines, [line]);
    assert [line][1..] == [] && OutLine(isJson, line) + [] == OutLine(isJson, line);
    hide OutLine;
  }

  lemma RelaysPush(isJson: string -> bool, lines: seq<string>, line: string, es: seq<RunEvent>)
    requires Relays(isJson, lines, es)
    ensures Relays(isJson, lines + [line], es + OutLine(isJson, line))
  {
    OutLineCarries(isJson, line);
    var last := OutLine(isJson, line);
    assert (lines + [line])[..|lines|] == lines && (lines + [line])[|lines|] == line;
    hide OutLine, Carries, AllSpace;
    if AllSpace(line) {
      assert es + last == es;
    } else {
      assert (es + last)[..|es|] == es && (es + last)[|es|] == last[0];
    }
  }

  lemma {:induction false} OutLinesRelay(isJson: string -> bool, lines: seq<string>)
    ensures Relays(isJson, lines, OutLines(isJson, lines))
  {
    if lines != [] {
      var n := |lines| - 1;
      var init, last := lines[..n], lines[n];
      assert lines == init + [last];
      hide OutLines, OutLine, Relays;
      OutLinesRelay(isJson, init);
      OutLinesPush(isJson, init, last);
      RelaysPush(isJson, init, last, OutLines(isJson, init));
    }
  }

  // The lines the child has finished; a close finishes the last one.
  function Finished(text: string, closed: bool): seq<string> {
    if closed then Complete(text) + [Unfinished(text)] else Complete(text)
  }

  // Whatever the chunking: the stdout events of a run are one per finished line that is not
  // blank, in order, each with that line's text.
  lemma StdoutTells(isJson: string -> bool, inputs: seq<Input>)
    requires Runs(isJson, SPAWNED, inputs)
    ensures var p := After(isJson, SPAWNED, inputs);
            !p.closed || !p.active.aborted ==>
              Relays(isJson, Finished(StdoutText(inputs), p.closed), Only(FromStdout, p.run.events))
  {
    var text, p := StdoutText(inputs), After(isJson, SPAWNED, inputs);
    StdoutReassembles(isJson, inputs);
    OutLinesRelay(isJson, Finished(text, p.closed));
    OutLinesPush(isJson, Complete(text), Unfinished(text));
    hide Relays, OutLines, OutLine, Only, Complete, Unfinished, After, Runs;
  }

  // ---- stderr ----

  // Every line of the text stands alone.
  lemma {:induction false} LinesUnbroken(text: string)
    ensures forall i :: 0 <= i < |Lines(text)| ==> '\n' !in Lines(text)[i]
    decreases |text|
  {
    var k := FirstNewline(text);
    if k < |text| {
      LinesUnbroken(text[k + 1..]);
    }
  }

  // Whatever the chunking: the child's stderr events are its finished lines, unchanged and in
  // order; a close adds the last one unless it is empty.
  lemma StderrTells(isJson: string -> bool, inputs: seq<Input>, i: nat)
    requires Runs(isJson, SPAWNED, inputs)
    ensures var p, text := After(isJson, SPAWNED, inputs), StderrText(inputs);
            var lines := Complete(text) + if p.closed && Unfinished(text) != "" then [Unfinished(text)] else [];
            !p.closed || !p.active.aborted ==>
              && |Only(FromStderr, p.run.events)| == |lines|
              && (i < |lines| ==> Only(FromStderr, p.run.events)[i] == StderrEvent(Child, lines[i]))
  {
    StderrReassembles(isJson, inputs);
    hide Only, Complete, Unfinished, After, Runs;
  }
}
