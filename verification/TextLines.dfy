// Text that arrives in chunks: its lines, and what is left of the last one.
module TextLines {

  // White space, as trimming and `\s` understand it.
  predicate IsSpace(c: char) {
    || c in {' ', '\t', '\n', '\r', '\U{000B}', '\U{000C}', '\U{00A0}', '\U{1680}', '\U{2028}', '\U{2029}',
        '\U{202F}', '\U{205F}'}
    || c in {'\U{3000}', '\U{FEFF}'}
    || '\U{2000}' <= c <= '\U{200A}'
  }

  // By code point.
  lemma SpaceCodes(c: char)
    ensures IsSpace(c) <==>
            var n := c as int;
            || 9 <= n <= 13 || n == 32 || n == 160 || n == 0x1680 || 0x2000 <= n <= 0x200A || n == 0x2028 || n == 0x2029
            || n == 0x202F || n == 0x205F || n == 0x3000 || n == 0xFEFF
  {
  }

  function FirstNewline(s: string): (k: nat)
    ensures k <= |s| && (k < |s| ==> s[k] == '\n')
    ensures forall i :: 0 <= i < k ==> s[i] != '\n'
  {
    if s == "" || s[0] == '\n' then 0 else 1 + FirstNewline(s[1..])
  }

  function Lines(s: string): (ls: seq<string>)
    ensures |ls| > 0
    decreases |s|
  {
    var k := FirstNewline(s);
    if k == |s| then [s] else [s[..k]] + Lines(s[k + 1..])
  }

  function Concat(chunks: seq<string>): string {
    if chunks == [] then "" else Concat(chunks[..|chunks| - 1]) + chunks[|chunks| - 1]
  }

  lemma Assoc<T>(a: seq<T>, b: seq<T>, c: seq<T>)
    ensures a + b + c == a + (b + c)
  {
  }

  lemma ConsLast(h: string, ts: seq<string>)
    requires |ts| > 0
    ensures var bs := [h] + ts;
            bs[..|bs| - 1] == [h] + ts[..|ts| - 1] && bs[|bs| - 1] == ts[|ts| - 1]
  {
  }

  lemma FirstNewlineIs(s: string, k: nat)
    requires k < |s| && s[k] == '\n' && forall i :: 0 <= i < k ==> s[i] != '\n'
    ensures FirstNewline(s) == k
  {
  }

  lemma LinesAt(s: string, k: nat)
    requires k < |s| && s[k] == '\n' && forall i :: 0 <= i < k ==> s[i] != '\n'
    ensures Lines(s) == [s[..k]] + Lines(s[k + 1..])
  {
    FirstNewlineIs(s, k);
    hide FirstNewline;
  }

  lemma LinesNone(s: string)
    requires FirstNewline(s) == |s|
    ensures Lines(s) == [s] && Lines(s)[..0] == []
  {
    hide FirstNewline;
  }

  lemma CutInside<T>(x: seq<T>, y: seq<T>, k: nat)
    requires k < |x|
    ensures (x + y)[..k] == x[..k] && (x + y)[k + 1..] == x[k + 1..] + y
    ensures forall i :: 0 <= i <= k ==> (x + y)[i] == x[i]
  {
  }

  // More text only extends the unfinished line.
  lemma {:induction false} LinesSplit(x: string, y: string)
    ensures var ls := Lines(x);
            Lines(x + y) == ls[..|ls| - 1] + Lines(ls[|ls| - 1] + y)
    decreases |x|
  {
    var k := FirstNewline(x);
    if k == |x| {
      LinesNone(x);
    } else {
      var tail := x[k + 1..];
      LinesSplit(tail, y);
      LinesAt(x, k);
      CutInside(x, y, k);
      LinesAt(x + y, k);
      var ts := Lines(tail);
      ConsLast(x[..k], ts);
      Assoc([x[..k]], ts[..|ts| - 1], Lines(ts[|ts| - 1] + y));
      hide Lines, FirstNewline;
    }
  }

  // ---- joining lines again ----

  function JoinLines(lines: seq<string>): string {
    if lines == [] then ""
    else if |lines| == 1 then lines[0]
    else lines[0] + "\n" + JoinLines(lines[1..])
  }

  predicate Unbroken(lines: seq<string>) {
    lines != [] && forall i :: 0 <= i < |lines| ==> '\n' !in lines[i]
  }

  lemma FirstLine(line: string, rest: string)
    requires '\n' !in line
    ensures Lines(line + "\n" + rest) == [line] + Lines(rest)
  {
    var s := line + "\n" + rest;
    hide Lines;
    assert s[|line|] == '\n' && forall i :: 0 <= i < |line| ==> s[i] == line[i];
    assert s[..|line|] == line && s[|line| + 1..] == rest;
    LinesAt(s, |line|);
  }

  lemma LineAlone(line: string)
    requires '\n' !in line
    ensures Lines(line) == [line]
  {
    assert forall i :: 0 <= i < |line| ==> line[i] in line;
    assert FirstNewline(line) == |line|;
  }

  // Splitting undoes joining.
  lemma {:induction false} JoinSplits(lines: seq<string>)
    requires Unbroken(lines)
    ensures Lines(JoinLines(lines)) == lines
  {
    if |lines| == 1 {
      LineAlone(lines[0]);
      assert lines == [lines[0]];
    } else {
      JoinSplits(lines[1..]);
      FirstLine(lines[0], JoinLines(lines[1..]));
      assert lines == [lines[0]] + lines[1..];
      hide Lines, JoinLines;
    }
  }
}
