// Server-sent events between the daemon and the relay: how a stream is framed, cut at
// arbitrary points, and drained chunk by chunk.
module Sse {
  import opened TextLines

  // ---- line ends: every "\r\n" becomes "\n" ----

  predicate StartsCrLf(s: string) {
    |s| >= 2 && s[0] == '\r' && s[1] == '\n'
  }

  function Norm(s: string): (r: string)
    ensures |r| <= |s|
  {
    if s == "" then ""
    else if StartsCrLf(s) then "\n" + Norm(s[2..])
    else [s[0]] + Norm(s[1..])
  }

  // ---- blocks: split on a blank line ----

  predicate BlankAt(s: string, k: nat) {
    k + 1 < |s| && s[k] == '\n' && s[k + 1] == '\n'
  }

  // First blank line, or the length when there is none.
  function FirstBlank(s: string): (k: nat)
    ensures k == |s| || k + 2 <= |s|
  {
    if s == "" || BlankAt(s, 0) then 0 else 1 + FirstBlank(s[1..])
  }

  lemma {:induction false} FirstBlankSpec(s: string)
    ensures var k := FirstBlank(s);
            && (k < |s| ==> BlankAt(s, k))
            && forall i :: 0 <= i < k ==> !BlankAt(s, i)
  {
    if s != "" && !BlankAt(s, 0) {
      FirstBlankSpec(s[1..]);
      assert forall i :: 0 < i < |s| ==> (BlankAt(s, i) <==> BlankAt(s[1..], i - 1));
    }
  }

  function Blocks(s: string): (bs: seq<string>)
    ensures |bs| > 0
    decreases |s|
  {
    var k := FirstBlank(s);
    if k == |s| then [s] else [s[..k]] + Blocks(s[k + 2..])
  }

  // ---- one block: its data lines ----

  const DATA: string := "data:"

  function Field(line: string): string
    requires DATA <= line
  {
    var v := line[|DATA|..];
    if v != "" && v[0] == ' ' then v[1..] else v
  }

  function DataFields(lines: seq<string>): seq<string> {
    if lines == [] then []
    else (if DATA <= lines[0] then [Field(lines[0])] else []) + DataFields(lines[1..])
  }

  function DataOf(block: string): string {
    JoinLines(DataFields(Lines(block)))
  }

  function EventsOf(blocks: seq<string>): seq<string> {
    if blocks == [] then []
    else EventsOf(blocks[..|blocks| - 1]) + if DataOf(blocks[|blocks| - 1]) != "" then [DataOf(blocks[|blocks| - 1])]
        else []
  }

  // ---- draining ----

  datatype Drained = Drained(events: seq<string>, rest: string)

  function Complete(blocks: seq<string>): Drained
    requires |blocks| > 0
  {
    Drained(EventsOf(blocks[..|blocks| - 1]), blocks[|blocks| - 1])
  }

  function Drain(buffer: string): Drained {
    Complete(Blocks(Norm(buffer)))
  }

  method DrainSse(buffer: string) returns (r: Drained)
    ensures r == Drain(buffer)
  {
    var blocks := Blocks(Norm(buffer));
    var rest := blocks[|blocks| - 1];
    blocks := blocks[..|blocks| - 1];
    var events: seq<string> := [];
    for i := 0 to |blocks|
      invariant events == EventsOf(blocks[..i])
    {
      assert blocks[..i + 1][..i] == blocks[..i];
      var data := DataOf(blocks[i]);
      if data != "" {
        events := events + [data];
      }
    }
    assert blocks[..|blocks|] == blocks;
    r := Drained(events, rest);
  }

  // The relay's read loop: the undrained tail is kept and prefixed to the next chunk.
  function Feed(rest: string, chunks: seq<string>): Drained
    decreases |chunks|
  {
    if chunks == [] then Drained([], rest)
    else
      var d := Feed(rest, chunks[..|chunks| - 1]);
      var e := Drain(d.rest + chunks[|chunks| - 1]);
      Drained(d.events + e.events, e.rest)
  }

  method ReadLoop(chunks: seq<string>) returns (r: Drained)
    ensures r == Feed("", chunks)
  {
    var buffer, sent := "", [];
    for i := 0 to |chunks|
      invariant Drained(sent, buffer) == Feed("", chunks[..i])
    {
      assert chunks[..i + 1][..i] == chunks[..i];
      var d := DrainSse(buffer + chunks[i]);
      buffer := d.rest;
      sent := sent + d.events;
    }
    assert chunks[..|chunks|] == chunks;
    r := Drained(sent, buffer);
  }

  // ---- relay response frames ----

  const CHUNK_CHARS: nat := 262_144

  datatype Part = Part(body: string, more: bool)

  function Bodies(parts: seq<Part>): (b: seq<string>)
    ensures |b| == |parts|
  {
    seq(|parts|, i requires 0 <= i < |parts| => parts[i].body)
  }

  // A body is split into frames under the cap; joining them gives it back, and only the
  // last one says there is no more.
  method ChunkResponse(body: string) returns (parts: seq<Part>)
    ensures |parts| > 0 && Concat(Bodies(parts)) == body
    ensures forall i :: 0 <= i < |parts| ==> |parts[i].body| <= CHUNK_CHARS && (parts[i].more <==> i < |parts| - 1)
    ensures forall i :: 0 <= i < |parts| - 1 ==> |parts[i].body| == CHUNK_CHARS
    ensures body != "" ==> parts[|parts| - 1].body != ""
  {
    var slices: seq<string> := [];
    var i := 0;
    while i < |body|
      invariant Concat(slices) == if i <= |body| then body[..i] else body
      invariant i >= 0 && (i == 0 <==> slices == [])
      invariant forall k :: 0 <= k < |slices| ==>
                    0 < |slices[k]| <= CHUNK_CHARS && (k < |slices| - 1 || i <= |body| ==> |slices[k]| == CHUNK_CHARS)
    {
      var end := if i + CHUNK_CHARS < |body| then i + CHUNK_CHARS else |body|;
      NextSlice(slices, body, i, end);
      slices := slices + [body[i..end]];
      i := i + CHUNK_CHARS;
    }
    if |slices| == 0 {
      slices := [""];
      assert slices[..0] == [];
    }
    assert body == body[..|body|];
    parts := seq(|slices|, k requires 0 <= k < |slices| => Part(slices[k], k < |slices| - 1));
    assert Bodies(parts) == slices;
  }

  lemma NextSlice(slices: seq<string>, body: string, i: nat, end: nat)
    requires i <= end <= |body| && Concat(slices) == body[..i]
    ensures Concat(slices + [body[i..end]]) == body[..end] && body[..|body|] == body
  {
    var next := slices + [body[i..end]];
    assert next[..|slices|] == slices;
    assert body[..i] + body[i..end] == body[..end];
  }

  // ---- normalisation across a cut ----

  predicate DoubleCrAt(s: string, i: nat) {
    i + 2 < |s| && s[i] == '\r' && s[i + 1] == '\r' && s[i + 2] == '\n'
  }

  ghost predicate NoDoubleCr(s: string) {
    forall i: nat :: !DoubleCrAt(s, i)
  }

  predicate CrLfAt(s: string, i: nat) {
    i + 1 < |s| && s[i] == '\r' && s[i + 1] == '\n'
  }

  ghost predicate NoCrLf(s: string) {
    forall i: nat :: !CrLfAt(s, i)
  }

  lemma NormCons(c: char, s: string)
    ensures c != '\r' || s == "" || s[0] != '\n' ==> Norm([c] + s) == [c] + Norm(s)
    ensures c == '\r' && s != "" && s[0] == '\n' ==> Norm([c] + s) == "\n" + Norm(s[1..])
  {
    var t := [c] + s;
    assert t[1..] == s;
    if c == '\r' && s != "" && s[0] == '\n' {
      assert t[2..] == s[1..];
    }
  }

  lemma ConsAssoc(c: char, a: string, b: string)
    ensures [c] + a + b == [c] + (a + b)
  {
  }

  lemma NormCrLf(s: string)
    requires StartsCrLf(s)
    ensures Norm(s) == ['\n'] + Norm(s[2..])
  {
  }

  // A cut that does not fall between '\r' and '\n' is invisible to normalisation.
  lemma {:induction false} NormSplit(x: string, y: string)
    requires x == "" || x[|x| - 1] != '\r' || y == "" || y[0] != '\n'
    ensures Norm(x + y) == Norm(x) + Norm(y)
    decreases |x|
  {
    hide Norm;
    if x == "" {
      NormEmpty(y);
    } else if StartsCrLf(x) {
      NormSplit(x[2..], y);
      NormSplitCrLf(x, y);
    } else {
      NormSplit(x[1..], y);
      NormSplitCons(x[0], x[1..], y);
      assert x == [x[0]] + x[1..];
    }
  }

  lemma NormEmpty(y: string)
    ensures Norm("" + y) == Norm("") + Norm(y)
  {
    assert "" + y == y && Norm("") == "";
  }

  lemma NormSplitCrLf(x: string, y: string)
    requires StartsCrLf(x) && Norm(x[2..] + y) == Norm(x[2..]) + Norm(y)
    ensures Norm(x + y) == Norm(x) + Norm(y)
  {
    hide Norm;
    NormCrLf(x);
    NormCrLf(x + y);
    assert (x + y)[2..] == x[2..] + y;
    ConsAssoc('\n', Norm(x[2..]), Norm(y));
  }

  lemma NormSplitCons(c: char, t: string, y: string)
    requires !StartsCrLf([c] + t) && !(c == '\r' && t == "" && y != "" && y[0] == '\n')
    requires Norm(t + y) == Norm(t) + Norm(y)
    ensures Norm([c] + t + y) == Norm([c] + t) + Norm(y)
  {
    hide Norm;
    ConsAssoc(c, t, y);
    NormCons(c, t);
    NormCons(c, t + y);
    ConsAssoc(c, Norm(t), Norm(y));
  }

  lemma {:induction false} NormFirst(s: string)
    requires s != ""
    ensures Norm(s) != "" && (Norm(s)[0] == '\n' <==> s[0] == '\n' || StartsCrLf(s))
    ensures Norm(s)[0] == '\r' ==> s[0] == '\r'
  {
  }

  lemma {:induction false} NormNoCrLf(s: string)
    requires NoDoubleCr(s)
    ensures NoCrLf(Norm(s))
    decreases |s|
  {
    if s == "" {
    } else {
      var k := if StartsCrLf(s) then 2 else 1;
      var t := s[k..];
      forall i: nat ensures !DoubleCrAt(t, i) {
        assert !DoubleCrAt(s, i + k);
      }
      NormNoCrLf(t);
      assert !DoubleCrAt(s, 0);
      if t != "" {
        NormFirst(t);
      }
      forall i: nat ensures !CrLfAt(Norm(s), i) {
        assert i > 0 ==> !CrLfAt(Norm(t), i - 1);
      }
    }
  }

  lemma {:induction false} NormId(s: string)
    requires NoCrLf(s)
    ensures Norm(s) == s
    decreases |s|
  {
    if s != "" {
      assert !CrLfAt(s, 0);
      forall i: nat ensures !CrLfAt(s[1..], i) {
        assert !CrLfAt(s, i + 1);
      }
      NormId(s[1..]);
    }
  }

  lemma {:induction false} NormShrinks(s: string, i: nat)
    requires CrLfAt(s, i)
    ensures |Norm(s)| < |s|
    decreases |s|
  {
    if !StartsCrLf(s) {
      assert CrLfAt(s[1..], i - 1);
      NormShrinks(s[1..], i - 1);
    }
  }

  lemma DoubleCrParts(s: string, a: string, b: string, k: nat)
    requires NoDoubleCr(s) && s == a + b && k <= |s|
    ensures NoDoubleCr(a) && NoDoubleCr(s[k..])
  {
    forall i: nat ensures !DoubleCrAt(a, i) && !DoubleCrAt(s[k..], i) {
      assert !DoubleCrAt(s, i) && !DoubleCrAt(s, i + k);
    }
  }

  lemma RenormaliseInvisible(a: string, b: string)
    requires NoDoubleCr(a + b)
    ensures Norm(Norm(a) + b) == Norm(a + b)
    decreases |a|
  {
    if a == "" {
      assert "" + b == b;
    } else if StartsCrLf(a) {
      DoubleCrParts(a + b, a, b, 2);
      assert (a + b)[2..] == a[2..] + b;
      RenormaliseInvisible(a[2..], b);
      hide Norm, NoDoubleCr;
      RenormaliseCrLf(a, b);
    } else {
      DoubleCrParts(a + b, a, b, 1);
      assert !DoubleCrAt(a + b, 0);
      assert (a + b)[1..] == a[1..] + b;
      RenormaliseInvisible(a[1..], b);
      assert a == [a[0]] + a[1..];
      hide Norm, NoDoubleCr;
      RenormaliseCons(a[0], a[1..], b);
    }
  }

  lemma RenormaliseCrLf(a: string, b: string)
    requires StartsCrLf(a) && Norm(Norm(a[2..]) + b) == Norm(a[2..] + b)
    ensures Norm(Norm(a) + b) == Norm(a + b)
  {
    NormCrLf(a);
    NormCrLf(a + b);
    assert (a + b)[2..] == a[2..] + b;
    ConsAssoc('\n', Norm(a[2..]), b);
    NormCons('\n', Norm(a[2..]) + b);
    hide Norm;
  }

  lemma RenormaliseCons(c: char, t: string, b: string)
    requires Norm(Norm(t) + b) == Norm(t + b) && !StartsCrLf([c] + t) && !DoubleCrAt([c] + t + b, 0)
    ensures Norm(Norm([c] + t) + b) == Norm([c] + t + b)
  {
    NormCons(c, t);
    ConsAssoc(c, Norm(t), b);
    ConsAssoc(c, t, b);
    NormCons(c, Norm(t) + b);
    NormCons(c, t + b);
    if t != "" {
      NormFirst(t);
      assert (Norm(t) + b)[0] == Norm(t)[0] && (t + b)[0] == t[0];
    } else {
      assert Norm(t) + b == t + b;
    }
    hide Norm;
  }

  lemma RenormaliseVisible(s: string, i: nat)
    requires DoubleCrAt(s, i)
    ensures Norm(Norm(s[..i + 3]) + s[i + 3..]) != Norm(s)
  {
    var x, y := s[..i + 3], s[i + 3..];
    assert s == x + y;
    NormSplit(x, y);
    var p := x[..i + 1];
    assert x == p + "\r\n";
    NormSplit(p, "\r\n");
    assert Norm("\r\n") == "\n" by {
      assert "\r\n"[2..] == "";
    }
    assert p == x[..i] + "\r";
    NormSplit(x[..i], "\r");
    assert Norm("\r") == "\r" by {
      assert "\r"[1..] == "";
    }
    var n := Norm(x);
    assert n == Norm(x[..i]) + "\r" + "\n";
    NormSplit(n, y);
    assert CrLfAt(n, |n| - 2);
    NormShrinks(n, |n| - 2);
  }

  // Renormalising the kept tail is invisible at every cut exactly when the stream has no
  // "\r\r\n": that one leaves a fresh "\r\n" behind.
  lemma RenormaliseIff(s: string)
    ensures NoDoubleCr(s) <==> forall k :: 0 <= k <= |s| ==> Norm(Norm(s[..k]) + s[k..]) == Norm(s)
  {
    if NoDoubleCr(s) {
      forall k | 0 <= k <= |s| ensures Norm(Norm(s[..k]) + s[k..]) == Norm(s) {
        assert s[..k] + s[k..] == s;
        RenormaliseInvisible(s[..k], s[k..]);
      }
    } else {
      var i: nat :| DoubleCrAt(s, i);
      RenormaliseVisible(s, i);
    }
  }

  // ---- blocks across a cut ----

  lemma FirstBlankIs(s: string, k: nat)
    requires BlankAt(s, k) && forall i :: 0 <= i < k ==> !BlankAt(s, i)
    ensures FirstBlank(s) == k
  {
    FirstBlankSpec(s);
  }

  lemma FirstBlankAgrees(x: string, s: string)
    requires FirstBlank(x) < |x| && FirstBlank(x) + 2 <= |s| && s[..FirstBlank(x) + 2] == x[..FirstBlank(x) + 2]
    ensures FirstBlank(s) == FirstBlank(x)
  {
    FirstBlankSpec(x);
    var k := FirstBlank(x);
    forall i | 0 <= i <= k ensures BlankAt(s, i) <==> BlankAt(x, i) {
      assert s[i] == s[..k + 2][i] == x[i] && s[i + 1] == s[..k + 2][i + 1] == x[i + 1];
    }
    FirstBlankIs(s, k);
  }

  lemma BlocksCons(x: string, s: string)
    requires FirstBlank(x) < |x| && FirstBlank(x) + 2 <= |s| && s[..FirstBlank(x) + 2] == x[..FirstBlank(x) + 2]
    ensures Blocks(s) == [x[..FirstBlank(x)]] + Blocks(s[FirstBlank(x) + 2..])
  {
    FirstBlankAgrees(x, s);
    TakeTake(x, s, FirstBlank(x), FirstBlank(x) + 2);
    BlocksAt(s);
    hide Blocks, FirstBlank, BlankAt;
  }

  lemma BlocksAt(s: string)
    requires FirstBlank(s) < |s|
    ensures Blocks(s) == [s[..FirstBlank(s)]] + Blocks(s[FirstBlank(s) + 2..])
  {
    hide FirstBlank, BlankAt;
  }

  lemma BlocksNone(s: string)
    requires FirstBlank(s) == |s|
    ensures Blocks(s) == [s] && Blocks(s)[..0] == []
  {
    hide FirstBlank, BlankAt;
  }

  lemma TakeTake<T>(x: seq<T>, s: seq<T>, k: nat, n: nat)
    requires k <= n <= |x| && n <= |s| && x[..n] == s[..n]
    ensures x[..k] == s[..k]
  {
    assert x[..k] == x[..n][..k] && s[..k] == s[..n][..k];
  }

  lemma TakeLonger<T>(x: seq<T>, y: seq<T>, k: nat)
    requires k <= |x|
    ensures (x + y)[..k] == x[..k]
  {
  }

  lemma {:induction false} BlocksSplit(x: string, y: string)
    ensures var bs := Blocks(x);
            Blocks(x + y) == bs[..|bs| - 1] + Blocks(bs[|bs| - 1] + y)
    decreases |x|
  {
    var k := FirstBlank(x);
    if k == |x| {
      BlocksNone(x);
    } else {
      var tail := x[k + 2..];
      BlocksSplit(tail, y);
      BlocksCons(x, x);
      CutInside(x, y, k + 1);
      TakeLonger(x, y, k + 2);
      BlocksCons(x, x + y);
      var ts := Blocks(tail);
      ConsLast(x[..k], ts);
      Assoc([x[..k]], ts[..|ts| - 1], Blocks(ts[|ts| - 1] + y));
      hide Blocks, FirstBlank, BlankAt;
    }
  }

  // p is the text before the tail that draining keeps, bs the blocks of the whole.
  ghost predicate IsHead(x: string, bs: seq<string>, p: string, pb: seq<string>) {
    && |bs| > 0 && x == p + bs[|bs| - 1] && pb == bs[..|bs| - 1] + [""] && (p == "" || p[|p| - 1] == '\n')
  }

  lemma HeadCons(x: string, k: nat, q: string, ts: seq<string>, qb: seq<string>)
    requires k + 2 <= |x| && x[k + 1] == '\n' && IsHead(x[k + 2..], ts, q, qb)
    ensures IsHead(x, [x[..k]] + ts, x[..k + 2] + q, [x[..k]] + qb)
    ensures (x[..k + 2] + q)[k + 2..] == q
  {
    Assoc(x[..k + 2], q, ts[|ts| - 1]);
    assert x == x[..k + 2] + x[k + 2..];
    ConsLast(x[..k], ts);
    Assoc([x[..k]], ts[..|ts| - 1], [""]);
  }

  lemma {:induction false} TailSplit(x: string) returns (p: string)
    ensures IsHead(x, Blocks(x), p, Blocks(p))
    decreases |x|
  {
    var k := FirstBlank(x);
    FirstBlankSpec(x);
    if k == |x| {
      p := "";
      BlocksNone(x);
      BlocksNone("");
    } else {
      var q := TailSplit(x[k + 2..]);
      p := x[..k + 2] + q;
      HeadCons(x, k, q, Blocks(x[k + 2..]), Blocks(q));
      BlocksCons(x, x);
      BlocksCons(x, p);
      hide Blocks, FirstBlank, IsHead, BlankAt;
    }
  }

  lemma {:induction false} EventsConcat(a: seq<string>, b: seq<string>)
    ensures EventsOf(a + b) == EventsOf(a) + EventsOf(b)
  {
    if b == [] {
      assert a + b == a;
    } else {
      var n := |b| - 1;
      EventsConcat(a, b[..n]);
      assert (a + b)[..|a| + n] == a + b[..n] && (a + b)[|a| + n] == b[n];
      EventsLast(a + b);
      EventsLast(b);
      Assoc(EventsOf(a), EventsOf(b[..n]), if DataOf(b[n]) != "" then [DataOf(b[n])] else []);
      hide DataOf, EventsOf;
    }
  }

  lemma EventsLast(a: seq<string>)
    requires a != []
    ensures EventsOf(a) == EventsOf(a[..|a| - 1]) + if DataOf(a[|a| - 1]) != "" then [DataOf(a[|a| - 1])] else []
  {
    hide DataOf;
  }

  lemma DrainJoin(x: string, bs: seq<string>, p: string, b: string)
    requires IsHead(x, bs, p, Blocks(p)) && Norm(p) == p
    ensures Blocks(Norm(x + b)) == bs[..|bs| - 1] + Blocks(Norm(bs[|bs| - 1] + b))
  {
    var n := |bs| - 1;
    hide Norm, Blocks;
    Assoc(p, bs[n], b);
    TailBlocks(p, bs[..n], bs[n] + b);
  }

  lemma HeadIsNormal(x: string, bs: seq<string>, p: string)
    requires NoCrLf(x) && IsHead(x, bs, p, Blocks(p))
    ensures Norm(p) == p
  {
    PrefixNoCrLf(x, p, bs[|bs| - 1]);
    NormId(p);
  }

  // Draining a, keeping its tail, and draining the tail with b equals draining a + b.
  lemma DrainStep(a: string, b: string)
    requires NoDoubleCr(a + b)
    ensures var d := Drain(a);
            var e := Drain(d.rest + b);
            Drain(a + b) == Drained(d.events + e.events, e.rest)
  {
    var x := Norm(a);
    var bs := Blocks(x);
    RenormaliseInvisible(a, b);
    DoubleCrParts(a + b, a, b, 0);
    NormNoCrLf(a);
    hide Norm, NoCrLf, NoDoubleCr, Blocks, IsHead;
    var p := TailSplit(x);
    HeadIsNormal(x, bs, p);
    DrainJoin(x, bs, p, b);
    BlocksEvents(bs[..|bs| - 1], Blocks(Norm(bs[|bs| - 1] + b)));
  }

  lemma PrefixNoCrLf(x: string, p: string, q: string)
    requires NoCrLf(x) && x == p + q
    ensures NoCrLf(p)
  {
    forall i: nat ensures !CrLfAt(p, i) {
      assert !CrLfAt(x, i);
    }
  }

  lemma TailBlocks(p: string, bs: seq<string>, y: string)
    requires Norm(p) == p && (p == "" || p[|p| - 1] == '\n') && Blocks(p) == bs + [""]
    ensures Blocks(Norm(p + y)) == bs + Blocks(Norm(y))
  {
    NormSplit(p, y);
    BlocksSplit(p, Norm(y));
    assert (bs + [""])[..|bs|] == bs;
    assert "" + Norm(y) == Norm(y);
  }

  lemma BlocksEvents(a: seq<string>, b: seq<string>)
    requires |b| > 0
    ensures Complete(a + b) == Drained(EventsOf(a) + Complete(b).events, Complete(b).rest)
  {
    assert (a + b)[..|a + b| - 1] == a + b[..|b| - 1];
    EventsConcat(a, b[..|b| - 1]);
  }

  // However the stream is cut, chunk-by-chunk draining yields what draining it whole would.
  lemma {:induction false} ChunkingInvisible(chunks: seq<string>)
    requires NoDoubleCr(Concat(chunks))
    ensures Feed("", chunks) == Drain(Concat(chunks))
    decreases |chunks|
  {
    if chunks == [] {
      DrainEmpty();
    } else {
      var n := |chunks| - 1;
      var a, b := Concat(chunks[..n]), chunks[n];
      forall i: nat ensures !DoubleCrAt(a, i) {
        assert !DoubleCrAt(a + b, i);
      }
      ChunkingInvisible(chunks[..n]);
      DrainStep(a, b);
    }
  }

  lemma DrainEmpty()
    ensures Drain("") == Drained([], "")
  {
    assert Blocks("") == [""];
  }

  // ---- the daemon's frames ----

  datatype Frame = Event(json: string) | Ping

  function Text(f: Frame): string {
    match f
    case Event(json) => "data: " + json + "\n\n"
    case Ping => ": ping\n\n"
  }

  function Wire(frames: seq<Frame>): string {
    if frames == [] then "" else Text(frames[0]) + Wire(frames[1..])
  }

  function Payloads(frames: seq<Frame>): seq<string> {
    if frames == [] then []
    else (if frames[0].Event? then [frames[0].json] else []) + Payloads(frames[1..])
  }

  // JSON.stringify escapes both line ends and is never empty.
  predicate IsJsonText(json: string) {
    json != "" && '\n' !in json && '\r' !in json
  }

  predicate Sendable(frames: seq<Frame>) {
    forall f <- frames :: f.Event? ==> IsJsonText(f.json)
  }

  lemma LineBlock(line: string, rest: string)
    requires '\n' !in line
    ensures Blocks(line + "\n\n" + rest) == [line] + Blocks(rest)
    ensures Lines(line) == [line]
  {
    var s := line + "\n\n" + rest;
    assert forall i :: 0 <= i < |line| ==> s[i] == line[i] && line[i] in line;
    FirstBlankIs(s, |line|);
    assert s[..|line|] == line && s[|line| + 2..] == rest;
  }

  function LineOf(f: Frame): string {
    match f
    case Event(json) => "data: " + json
    case Ping => ": ping"
  }

  lemma FrameLine(f: Frame)
    requires f.Event? ==> IsJsonText(f.json)
    ensures '\n' !in LineOf(f) && '\r' !in LineOf(f) && Text(f) == LineOf(f) + "\n\n"
    ensures DataFields([LineOf(f)]) == if f.Event? then [f.json] else []
  {
    var l := LineOf(f);
    var one: seq<string> := [l];
    assert one[1..] == [];
    match f
    case Event(json) =>
      assert l[..5] == DATA;
      assert l[|DATA|..] == " " + json;
    case Ping =>
      assert l[0] != DATA[0];
  }

  lemma {:induction false} WireNoCr(frames: seq<Frame>)
    requires Sendable(frames)
    ensures '\r' !in Wire(frames)
  {
    if frames != [] {
      FrameLine(frames[0]);
      WireNoCr(frames[1..]);
    }
  }

  lemma {:induction false} WireBlocks(frames: seq<Frame>)
    requires Sendable(frames)
    ensures Complete(Blocks(Wire(frames))) == Drained(Payloads(frames), "")
  {
    if frames == [] {
      DrainEmpty();
      assert Blocks("") == [""];
    } else {
      var f, rest := frames[0], Wire(frames[1..]);
      WireBlocks(frames[1..]);
      FrameLine(f);
      LineBlock(LineOf(f), rest);
      assert DataOf(LineOf(f)) == if f.Event? then f.json else "";
      BlocksEvents([LineOf(f)], Blocks(rest));
      var one: seq<string> := [LineOf(f)];
      assert one[..0] == [];
      assert EventsOf([LineOf(f)]) == if f.Event? then [f.json] else [];
    }
  }

  // Any run of events and pings, cut anywhere, drains to exactly the events, in order.
  lemma SseRoundTrip(frames: seq<Frame>, chunks: seq<string>)
    requires Sendable(frames) && Concat(chunks) == Wire(frames)
    ensures Feed("", chunks) == Drained(Payloads(frames), "")
  {
    var w := Wire(frames);
    WireNoCr(frames);
    assert forall i :: 0 <= i < |w| ==> w[i] in w;
    ChunkingInvisible(chunks);
    NormId(w);
    WireBlocks(frames);
  }

  lemma OneEvent(v: string)
    requires v != "" && v[0] != ' ' && '\n' !in v
    ensures Complete(Blocks("data:" + v + "\n\n")) == Drained([v], "")
  {
    var line := "data:" + v;
    OneField(v);
    LineBlock(line, "");
    OneBlock(line, v);
  }

  lemma OneField(v: string)
    requires v != "" && v[0] != ' ' && '\n' !in v
    ensures DataFields(["data:" + v]) == [v]
  {
    var line := "data:" + v;
    var one: seq<string> := [line];
    assert one[1..] == [];
    assert line[..|DATA|] == DATA && line[|DATA|..] == v;
  }

  lemma OneBlock(line: string, v: string)
    requires v != "" && Lines(line) == [line] && DataFields([line]) == [v]
            && Blocks(line + "\n\n" + "") == [line] + Blocks("")
    ensures Complete(Blocks(line + "\n\n")) == Drained([v], "")
  {
    assert Blocks("") == [""];
    assert line + "\n\n" + "" == line + "\n\n";
    var one: seq<string> := [line];
    assert one[..0] == [];
    var bs := [line, ""];
    assert bs[..1] == one;
    assert EventsOf(one) == [v];
    hide Lines, Blocks, DataFields;
  }

  // With "\r\r\n" in the stream a cut can change an event: drained whole, the data keeps
  // a '\r'; cut after that line end, it does not.
  lemma DoubleCrMatters(v: string)
    requires v != "" && v[0] != ' ' && '\n' !in v && '\r' !in v
    ensures Drain("data:" + v + "\r" + "\r\n\n").events == [v + "\r"]
    ensures Feed("", ["data:" + v + "\r" + "\r\n", "\n"]).events == [v]
  {
    var line := "data:" + v;
    LineIsNormal(line);
    NormEnds();
    Assoc("data:", v, "\r");
    NormSplit(line + "\r", "\r\n\n");
    OneEvent(v + "\r");
    TwoChunks(v);
  }

  lemma TwoChunks(v: string)
    requires v != "" && v[0] != ' ' && '\n' !in v && '\r' !in v
    ensures Feed("", ["data:" + v + "\r" + "\r\n", "\n"]).events == [v]
  {
    var line := "data:" + v;
    FirstChunk(line);
    FeedTwo(line + "\r" + "\r\n", "\n");
    hide Feed, Blocks, FirstBlank, FirstNewline, Lines;
    LineIsNormal(line);
    NormEnds();
    Assoc(line, "\r\n", "\n");
    assert "\r\n" + "\n" == "\r\n\n";
    NormSplit(line, "\r\n\n");
    OneEvent(v);
    hide Norm;
  }

  lemma LineIsNormal(line: string)
    requires '\r' !in line
    ensures Norm(line) == line && Norm(line + "\r") == line + "\r"
    ensures line == "" || line[|line| - 1] != '\r'
  {
    assert forall i :: 0 <= i < |line| ==> line[i] in line;
    var s := line + "\r";
    assert forall i :: 0 <= i < |line| ==> s[i] == line[i];
    NormId(line);
    NormId(s);
  }

  // The first chunk holds no blank line: it is kept whole, one line end shorter.
  lemma FirstChunk(line: string)
    requires '\r' !in line && '\n' !in line
    ensures Drain(line + "\r" + "\r\n") == Drained([], line + "\r\n")
  {
    LineIsNormal(line);
    NormEnds();
    NormSplit(line + "\r", "\r\n");
    Assoc(line, "\r", "\n");
    assert "\r" + "\n" == "\r\n";
    var t := line + "\r\n";
    hide Norm;
    assert forall i :: 0 <= i < |line| ==> t[i] == line[i] && line[i] in line;
    FirstBlankNone(t);
    WholeKept(t);
  }

  lemma WholeKept(t: string)
    requires FirstBlank(t) == |t|
    ensures Complete(Blocks(t)) == Drained([], t)
  {
    BlocksNone(t);
  }

  lemma NormEnds()
    ensures Norm("\r\n") == "\n" && Norm("\r\n\n") == "\n\n"
  {
    assert "\r\n"[2..] == "" && "\r\n\n"[2..] == "\n" && "\n"[1..] == "";
  }

  lemma FirstBlankNone(s: string)
    requires forall i :: 0 <= i < |s| ==> !BlankAt(s, i)
    ensures FirstBlank(s) == |s|
  {
    FirstBlankSpec(s);
  }

  lemma FeedOne(c1: string)
    ensures Feed("", [c1]) == Drain(c1)
  {
    var one: seq<string> := [c1];
    assert one[..0] == [] && "" + c1 == c1;
    hide Drain;
    assert [] + Drain(c1).events == Drain(c1).events;
  }

  lemma FeedTwo(c1: string, c2: string)
    ensures var d := Drain(c1);
            var e := Drain(d.rest + c2);
            Feed("", [c1, c2]) == Drained(d.events + e.events, e.rest)
  {
    FeedOne(c1);
    var two: seq<string> := [c1, c2];
    assert two[..1] == [c1];
    hide Drain;
  }

  // ---- events of several lines ----

  function DataLines(texts: seq<string>): (lines: seq<string>)
    ensures |lines| == |texts|
  {
    seq(|texts|, i requires 0 <= i < |texts| => "data: " + texts[i])
  }

  lemma {:induction false} FieldsBack(texts: seq<string>)
    ensures DataFields(DataLines(texts)) == texts
  {
    if texts != [] {
      var line := "data: " + texts[0];
      FieldsBack(texts[1..]);
      assert DataLines(texts) == [line] + DataLines(texts[1..]);
      assert line[..|DATA|] == DATA && line[|DATA|..] == " " + texts[0];
      assert Field(line) == texts[0];
    }
  }

  // The data of an event keeps its line ends: written one "data: " line each, the lines of the
  // data are the texts that were written.
  lemma DataLinesBack(texts: seq<string>)
    requires Unbroken(texts)
    ensures Lines(DataOf(JoinLines(DataLines(texts)))) == texts
  {
    forall i | 0 <= i < |texts| ensures '\n' !in DataLines(texts)[i] {
      var line := DataLines(texts)[i];
      assert forall j :: 0 <= j < |line| ==> if j < 6 then line[j] == "data: "[j] else line[j] == texts[i][j - 6];
    }
    JoinSplits(DataLines(texts));
    FieldsBack(texts);
    JoinSplits(texts);
    hide Lines, JoinLines, DataFields;
  }

  // ---- exactly which streams may be cut anywhere ----

  lemma {:induction false} LastBlock(s: string)
    ensures var t := Blocks(s)[|Blocks(s)| - 1];
            |t| <= |s| && FirstBlank(t) == |t|
    decreases |s|
  {
    hide Blocks;
    var k := FirstBlank(s);
    if k < |s| {
      BlocksAt(s);
      LastBlock(s[k + 2..]);
    } else {
      BlocksNone(s);
    }
    hide FirstBlank;
  }

  lemma NoBlankCrLf(t: string)
    requires FirstBlank(t) == |t|
    ensures FirstBlank(t + "\r\n") == |t + "\r\n"|
  {
    FirstBlankSpec(t);
    var x := t + "\r\n";
    forall i | 0 <= i < |x| ensures !BlankAt(x, i) {
      if i + 1 < |t| {
        assert !BlankAt(t, i) && x[i] == t[i] && x[i + 1] == t[i + 1];
      }
    }
    FirstBlankNone(x);
  }

  // What follows the last blank line of p, and then "\r\n", is kept.
  lemma TailKeepsCrLf(p: string)
    ensures var bs := Blocks(p + "\r\n");
            |bs[|bs| - 1]| >= 2 && CrLfAt(bs[|bs| - 1], |bs[|bs| - 1]| - 2)
  {
    LastBlock(p);
    var t := Blocks(p)[|Blocks(p)| - 1];
    NoBlankCrLf(t);
    BlocksSplit(p, "\r\n");
    BlocksNone(t + "\r\n");
    hide Blocks, FirstBlank;
  }

  lemma NormDoubleCr(s: string)
    ensures Norm(s + "\r\r\n") == Norm(s) + "\r\n"
  {
    NormEnds();
    NormSplit(s, "\r");
    NormSplit(s + "\r", "\r\n");
    assert s + "\r" + "\r\n" == s + "\r\r\n";
    assert Norm("\r") == "\r";
    assert Norm(s) + "\r" + "\n" == Norm(s) + "\r\n";
  }

  lemma ShorterTail(t: string, i: nat)
    requires CrLfAt(t, i)
    ensures |Drain(t).rest| < |t|
  {
    NormShrinks(t, i);
    LastBlock(Norm(t));
    hide Blocks, FirstBlank, Norm;
  }

  // Draining again what was kept from "...\r\r\n" changes it.
  lemma SecondDrainDiffers(s: string)
    ensures var a := s + "\r\r\n";
            Feed("", [a, ""]) != Drain(a)
  {
    var a := s + "\r\r\n";
    NormDoubleCr(s);
    TailKeepsCrLf(Norm(s));
    var t := Drain(a).rest;
    ShorterTail(t, |t| - 2);
    FeedTwo(a, "");
    assert t + "" == t;
    hide Drain, Feed, Norm, Blocks;
  }

  lemma CutAfterDoubleCr(s: string, i: nat)
    requires DoubleCrAt(s, i)
    ensures i + 3 <= |s| && s[..i + 3] == s[..i] + "\r\r\n" && s[..i + 3] <= s
  {
  }

  lemma ConcatEmpty(a: string)
    ensures Concat([a, ""]) == a
  {
    assert [a, ""][1..] == [""] && [""][1..] == [];
    assert Concat([""]) == "" && a + "" == a;
  }

  lemma PrefixNoDoubleCr(s: string, a: string)
    requires NoDoubleCr(s) && a <= s
    ensures NoDoubleCr(a)
  {
    assert s == a + s[|a|..];
    DoubleCrParts(s, a, s[|a|..], 0);
  }

  // At every moment, however the stream has been cut, the loop has produced the events and
  // kept the tail of draining everything received at once: exactly when the stream has no
  // "\r\r\n".
  lemma ChunkingInvisibleIff(s: string)
    ensures NoDoubleCr(s) <==> forall chunks :: Concat(chunks) <= s ==> Feed("", chunks) == Drain(Concat(chunks))
  {
    hide Feed, Drain, Concat, DoubleCrAt;
    if NoDoubleCr(s) {
      forall chunks | Concat(chunks) <= s ensures Feed("", chunks) == Drain(Concat(chunks)) {
        PrefixNoDoubleCr(s, Concat(chunks));
        ChunkingInvisible(chunks);
      }
    } else {
      var i: nat :| DoubleCrAt(s, i);
      CutAfterDoubleCr(s, i);
      SecondDrainDiffers(s[..i]);
      ConcatEmpty(s[..i + 3]);
      assert Concat([s[..i + 3], ""]) <= s;
    }
  }
}
