// The per-sender key: IPv4 text as it is, IPv6 text cut to its /64.
module SenderNetwork {

  import opened Options

  // One colon-separated piece of an address.
  datatype Group = Group(text: string)

  // ---- the string operations the key is built from ----

  function LowerChar(c: char): char {
    if 'A' <= c <= 'Z' then (c as int + 32) as char else c
  }

  function Lower(s: string): string {
    seq(|s|, i requires 0 <= i < |s| => LowerChar(s[i]))
  }

  // Where "::" first occurs; the length when it does not.
  function PairAt(s: string): (k: nat)
    ensures k <= |s|
  {
    if |s| < 2 then |s| else if s[0] == ':' && s[1] == ':' then 0 else 1 + PairAt(s[1..])
  }

  function HeadOf(s: string): string {
    s[..PairAt(s)]
  }

  // The piece between the first "::" and the next; anything after that is dropped.
  function TailOf(s: string): Option<string> {
    if PairAt(s) + 2 <= |s| then Some(HeadOf(s[PairAt(s) + 2..])) else None
  }

  function Split(s: string): (gs: seq<Group>)
    ensures |gs| > 0
  {
    if s == "" then [Group("")]
    else
      var rest := Split(s[1..]);
      if s[0] == ':' then [Group("")] + rest else [Group([s[0]] + rest[0].text)] + rest[1..]
  }

  function Pieces(s: string): seq<Group> {
    if s == "" then [] else Split(s)
  }

  function Join(gs: seq<Group>): string {
    if gs == [] then ""
    else if |gs| == 1 then gs[0].text
    else gs[0].text + ":" + Join(gs[1..])
  }

  // Leading zeros go, but never the last character.
  function Strip(g: string): (r: string)
    ensures |r| <= |g| && (g != "" ==> r != "")
    ensures forall c <- r :: c in g
  {
    if |g| >= 2 && g[0] == '0' then Strip(g[1..]) else g
  }

  function Stripped(gs: seq<Group>): seq<Group> {
    seq(|gs|, i requires 0 <= i < |gs| => Group(Strip(gs[i].text)))
  }

  function Zeros(n: int): seq<Group> {
    seq(if n < 0 then 0 else n, _ => Group("0"))
  }

  function Groups(ip: string): seq<Group> {
    var hs := Pieces(HeadOf(Lower(ip)));
    match TailOf(Lower(ip))
    case None => hs
    case Some(tail) => hs + Zeros(8 - |hs| - |Pieces(tail)|) + Pieces(tail)
  }

  const SUFFIX: string := "::/64"

  function SenderNetwork(ip: string): string {
    if ':' !in ip then ip
    else if |Groups(ip)| != 8 then ip
    else Join(Stripped(Groups(ip)[..4])) + SUFFIX
  }

  // ---- addresses and their spellings (section 2.2 of RFC 4291) ----

  predicate IsHex(c: char) {
    '0' <= c <= '9' || 'a' <= c <= 'f' || 'A' <= c <= 'F'
  }

  function DigitOf(c: char): (d: nat)
    requires IsHex(c)
    ensures d < 16
  {
    if c <= '9' then c as int - '0' as int
    else if c <= 'F' then c as int - 'A' as int + 10
    else c as int - 'a' as int + 10
  }

  predicate HexText(g: string) {
    |g| > 0 && forall c <- g :: IsHex(c)
  }

  function ValueOf(g: string): nat
    requires forall c <- g :: IsHex(c)
  {
    if g == "" then 0 else 16 * ValueOf(g[..|g| - 1]) + DigitOf(g[|g| - 1])
  }

  predicate HexGroup(g: Group) {
    HexText(g.text) && |g.text| <= 4
  }

  predicate HexGroups(gs: seq<Group>) {
    forall i :: 0 <= i < |gs| ==> HexGroup(gs[i])
  }

  function Values(gs: seq<Group>): seq<nat>
    requires HexGroups(gs)
  {
    seq(|gs|, i requires 0 <= i < |gs| => ValueOf(gs[i].text))
  }

  function ZeroWords(n: nat): seq<nat> {
    seq(n, _ => 0)
  }

  // The dotted IPv4 tail some spellings end in: four bytes, written in decimal.
  datatype Quad = Quad(a: nat, b: nat, c: nat, d: nat)

  predicate QuadOk(q: Quad) {
    q.a < 256 && q.b < 256 && q.c < 256 && q.d < 256
  }

  function Decimal(n: nat): (s: string)
    ensures s != "" && forall i :: 0 <= i < |s| ==> '0' <= s[i] <= '9'
  {
    if n < 10 then [DigitChar(n)] else Decimal(n / 10) + [DigitChar(n % 10)]
  }

  function QuadText(q: Quad): string {
    Decimal(q.a) + "." + Decimal(q.b) + "." + Decimal(q.c) + "." + Decimal(q.d)
  }

  function QuadWords(q: Quad): (ws: seq<nat>)
    ensures |ws| == 2
  {
    [q.a * 256 + q.b, q.c * 256 + q.d]
  }

  datatype Spelling =
    | Full(groups: seq<Group>)
    | Elided(left: seq<Group>, right: seq<Group>)
    | FullDotted(groups: seq<Group>, quad: Quad)
    | ElidedDotted(left: seq<Group>, right: seq<Group>, quad: Quad)

  predicate WellFormed(sp: Spelling) {
    match sp
    case Full(gs) => |gs| == 8 && HexGroups(gs)
    case Elided(l, r) => |l| + |r| <= 7 && HexGroups(l) && HexGroups(r)
    case FullDotted(gs, q) => |gs| == 6 && HexGroups(gs) && QuadOk(q)
    case ElidedDotted(l, r, q) => |l| + |r| <= 5 && HexGroups(l) && HexGroups(r) && QuadOk(q)
  }

  predicate Dotted(sp: Spelling) {
    sp.FullDotted? || sp.ElidedDotted?
  }

  function Text(sp: Spelling): string {
    match sp
    case Full(gs) => Join(gs)
    case Elided(l, r) => Join(l) + "::" + Join(r)
    case FullDotted(gs, q) => Join(gs + [Group(QuadText(q))])
    case ElidedDotted(l, r, q) => Join(l) + "::" + Join(r + [Group(QuadText(q))])
  }

  // The eight 16-bit words of the address.
  function Words(sp: Spelling): (ws: seq<nat>)
    requires WellFormed(sp)
    ensures |ws| == 8
  {
    match sp
    case Full(gs) => Values(gs)
    case Elided(l, r) => Values(l) + ZeroWords(8 - |l| - |r|) + Values(r)
    case FullDotted(gs, q) => Values(gs) + QuadWords(q)
    case ElidedDotted(l, r, q) => Values(l) + ZeroWords(6 - |l| - |r|) + Values(r) + QuadWords(q)
  }

  // The one key of a /64: its four words in lower-case hexadecimal without leading zeros.
  function DigitChar(d: nat): char
    requires d < 16
  {
    if d < 10 then ('0' as int + d) as char else ('a' as int + d - 10) as char
  }

  function Hex(v: nat): string {
    if v < 16 then [DigitChar(v)] else Hex(v / 16) + [DigitChar(v % 16)]
  }

  function HexAll(ws: seq<nat>): seq<Group> {
    seq(|ws|, i requires 0 <= i < |ws| => Group(Hex(ws[i])))
  }

  function Key(prefix: seq<nat>): string {
    Join(HexAll(prefix)) + SUFFIX
  }

  // ---- splitting undoes joining ----

  predicate Plain(g: Group) {
    g.text != "" && ':' !in g.text
  }

  predicate AllPlain(gs: seq<Group>) {
    forall i :: 0 <= i < |gs| ==> Plain(gs[i])
  }

  lemma {:induction false} SplitText(g: string)
    requires ':' !in g
    ensures Split(g) == [Group(g)]
  {
    if g != "" {
      SplitText(g[1..]);
      assert [g[0]] + g[1..] == g;
    }
  }

  lemma {:induction false} SplitFirst(g: string, rest: string)
    requires ':' !in g
    ensures Split(g + ":" + rest) == [Group(g)] + Split(rest)
  {
    var s := g + ":" + rest;
    if g == "" {
      assert s[1..] == rest;
    } else {
      SplitFirst(g[1..], rest);
      assert s[1..] == g[1..] + ":" + rest;
      assert [g[0]] + g[1..] == g;
    }
  }

  lemma {:induction false} SplitJoin(gs: seq<Group>)
    requires AllPlain(gs) && gs != []
    ensures Split(Join(gs)) == gs
  {
    if |gs| == 1 {
      SplitText(gs[0].text);
    } else {
      SplitJoin(gs[1..]);
      SplitFirst(gs[0].text, Join(gs[1..]));
      assert [gs[0]] + gs[1..] == gs;
    }
  }

  lemma PiecesJoin(gs: seq<Group>)
    requires AllPlain(gs)
    ensures Pieces(Join(gs)) == gs
  {
    if gs != [] {
      SplitJoin(gs);
      JoinEnds(gs);
    }
  }

  // ---- no "::" inside a join ----

  predicate NoPair(s: string) {
    forall i :: 0 <= i < |s| - 1 ==> !(s[i] == ':' && s[i + 1] == ':')
  }

  lemma {:induction false} JoinEnds(gs: seq<Group>)
    requires AllPlain(gs) && gs != []
    ensures var s := Join(gs); s != "" && s[0] != ':' && s[|s| - 1] != ':'
  {
    assert Plain(gs[0]) && gs[0].text[0] in gs[0].text && gs[0].text[|gs[0].text| - 1] in gs[0].text;
    if |gs| > 1 {
      JoinEnds(gs[1..]);
    }
  }

  lemma {:induction false} JoinNoPair(gs: seq<Group>)
    requires AllPlain(gs)
    ensures NoPair(Join(gs))
  {
    if gs == [] {
    } else if |gs| == 1 {
      assert Plain(gs[0]);
    } else {
      JoinNoPair(gs[1..]);
      JoinEnds(gs[1..]);
      assert Plain(gs[0]);
      var g, rest := gs[0].text, Join(gs[1..]);
      var s := g + ":" + rest;
      forall i | 0 <= i < |s| - 1 ensures !(s[i] == ':' && s[i + 1] == ':') {
        if i < |g| {
          assert s[i] in g;
        } else if i > |g| {
          assert s[i] == rest[i - |g| - 1] && s[i + 1] == rest[i - |g|];
        }
      }
    }
  }

  lemma {:induction false} NoPairAt(s: string)
    requires NoPair(s)
    ensures PairAt(s) == |s|
  {
    if |s| >= 2 {
      assert s[0] != ':' || s[0 + 1] != ':';
      forall i | 0 <= i < |s[1..]| - 1 ensures !(s[1..][i] == ':' && s[1..][i + 1] == ':') {
        assert s[1..][i] == s[i + 1] && s[1..][i + 1] == s[i + 1 + 1];
      }
      NoPairAt(s[1..]);
    }
  }

  lemma {:induction false} FirstPairAt(h: string, rest: string)
    requires NoPair(h) && (h != "" ==> h[|h| - 1] != ':')
    ensures PairAt(h + "::" + rest) == |h|
  {
    var s := h + "::" + rest;
    if h != "" {
      assert s[1..] == h[1..] + "::" + rest;
      assert !(s[0] == ':' && s[1] == ':') by {
        if |h| >= 2 {
          assert s[0] == h[0] && s[1] == h[0 + 1];
        }
      }
      forall i | 0 <= i < |h[1..]| - 1 ensures !(h[1..][i] == ':' && h[1..][i + 1] == ':') {
        assert h[1..][i] == h[i + 1] && h[1..][i + 1] == h[i + 1 + 1];
      }
      FirstPairAt(h[1..], rest);
    }
  }

  lemma CutAt(h: string, rest: string)
    requires NoPair(h) && (h != "" ==> h[|h| - 1] != ':') && NoPair(rest)
    ensures HeadOf(h + "::" + rest) == h && TailOf(h + "::" + rest) == Some(rest)
  {
    var s := h + "::" + rest;
    FirstPairAt(h, rest);
    NoPairAt(rest);
    assert s[..|h|] == h && s[|h| + 2..] == rest && rest[..|rest|] == rest;
  }

  // ---- lower case ----

  function LowerAll(gs: seq<Group>): seq<Group> {
    seq(|gs|, i requires 0 <= i < |gs| => Group(Lower(gs[i].text)))
  }

  lemma LowerPlus(s: string, t: string)
    ensures Lower(s + t) == Lower(s) + Lower(t)
  {
  }

  lemma {:induction false} LowerJoin(gs: seq<Group>)
    ensures Lower(Join(gs)) == Join(LowerAll(gs))
  {
    if |gs| > 1 {
      LowerJoin(gs[1..]);
      LowerPlus(gs[0].text + ":", Join(gs[1..]));
      LowerPlus(gs[0].text, ":");
      assert Lower(":") == ":";
      assert LowerAll(gs)[1..] == LowerAll(gs[1..]);
    }
  }

  lemma LowerColon(s: string)
    ensures ':' in Lower(s) <==> ':' in s
  {
    forall i | 0 <= i < |s| ensures Lower(s)[i] == ':' <==> s[i] == ':' {
    }
    if ':' in s {
      var i :| 0 <= i < |s| && s[i] == ':';
      assert Lower(s)[i] == ':';
    }
  }

  lemma LowerPlain(gs: seq<Group>)
    requires AllPlain(gs)
    ensures AllPlain(LowerAll(gs)) && |LowerAll(gs)| == |gs|
  {
    forall i | 0 <= i < |gs| ensures Plain(LowerAll(gs)[i]) {
      assert Plain(gs[i]);
      LowerColon(gs[i].text);
    }
  }

  // ---- the groups of a text ----

  lemma FullGroups(gs: seq<Group>)
    requires AllPlain(gs) && gs != []
    ensures Groups(Join(gs)) == LowerAll(gs)
  {
    LowerJoin(gs);
    LowerPlain(gs);
    var s := Join(LowerAll(gs));
    JoinNoPair(LowerAll(gs));
    NoPairAt(s);
    assert s[..|s|] == s;
    PiecesJoin(LowerAll(gs));
  }

  lemma LowerElided(l: seq<Group>, r: seq<Group>)
    ensures Lower(Join(l) + "::" + Join(r)) == Join(LowerAll(l)) + "::" + Join(LowerAll(r))
  {
    LowerPlus(Join(l) + "::", Join(r));
    LowerPlus(Join(l), "::");
    assert Lower("::") == "::";
    LowerJoin(l);
    LowerJoin(r);
  }

  lemma CutElided(l: seq<Group>, r: seq<Group>)
    requires AllPlain(l) && AllPlain(r)
    ensures HeadOf(Join(l) + "::" + Join(r)) == Join(l) && TailOf(Join(l) + "::" + Join(r)) == Some(Join(r))
  {
    JoinNoPair(l);
    JoinNoPair(r);
    if l != [] {
      JoinEnds(l);
    }
    CutAt(Join(l), Join(r));
  }

  lemma ElidedGroups(l: seq<Group>, r: seq<Group>)
    requires AllPlain(l) && AllPlain(r)
    ensures Groups(Join(l) + "::" + Join(r)) == LowerAll(l) + Zeros(8 - |l| - |r|) + LowerAll(r)
  {
    hide Lower, Join, HeadOf, TailOf, Pieces, Zeros, AllPlain, Plain;
    LowerPlain(l);
    LowerPlain(r);
    LowerElided(l, r);
    CutElided(LowerAll(l), LowerAll(r));
    PiecesJoin(LowerAll(l));
    PiecesJoin(LowerAll(r));
  }

  // ---- a group's canonical text ----

  lemma {:induction false} ValueHead(g: string)
    requires HexText(g)
    ensures g[0] == '0' ==> ValueOf(g) == ValueOf(g[1..])
    ensures g[0] != '0' ==> ValueOf(g) > 0
  {
    var n := |g| - 1;
    assert g[0] in g && g[n] in g;
    if n == 0 {
      ValueOne(g[0]);
      assert g == [g[0]] && g[1..] == "";
    } else {
      InitHex(g);
      ValueHead(g[..n]);
      assert g[1..][..n - 1] == g[..n][1..];
    }
  }

  lemma {:induction false} StripValue(g: string)
    requires HexText(g)
    ensures HexText(Strip(g)) && ValueOf(Strip(g)) == ValueOf(g)
    ensures |Strip(g)| == 1 || Strip(g)[0] != '0'
  {
    if |g| >= 2 && g[0] == '0' {
      ValueHead(g);
      StripValue(g[1..]);
    }
  }

  lemma {:induction false} LowerValue(g: string)
    requires HexText(g)
    ensures LowerHex(Lower(g)) && ValueOf(Lower(g)) == ValueOf(g)
  {
    var n := |g| - 1;
    assert IsHex(g[n]) && DigitOf(LowerChar(g[n])) == DigitOf(g[n]);
    assert Lower(g)[..n] == Lower(g[..n]);
    if n > 0 {
      LowerValue(g[..n]);
    }
    assert Lower(g) == Lower(g[..n]) + [LowerChar(g[n])];
  }

  lemma DigitText(c: char)
    requires IsHex(c) && !('A' <= c <= 'F')
    ensures DigitChar(DigitOf(c)) == c
  {
  }

  predicate LowerHex(g: string) {
    HexText(g) && forall c <- g :: !('A' <= c <= 'F')
  }

  lemma InitHex(g: string)
    requires |g| > 1
    ensures HexText(g) ==> HexText(g[..|g| - 1])
    ensures LowerHex(g) ==> LowerHex(g[..|g| - 1])
    ensures g[..|g| - 1][0] == g[0] && g == g[..|g| - 1] + [g[|g| - 1]]
  {
    var h := g[..|g| - 1];
    assert forall c <- h :: c in g;
    if LowerHex(g) {
      forall c | c in h ensures !('A' <= c <= 'F') {
        assert c in g;
      }
    }
  }

  lemma ValueOne(c: char)
    requires IsHex(c)
    ensures ValueOf([c]) == DigitOf(c)
  {
    assert [c][..0] == "";
  }

  lemma {:induction false} CanonicalText(g: string)
    requires LowerHex(g) && (|g| == 1 || g[0] != '0')
    ensures g == Hex(ValueOf(g))
  {
    var n := |g| - 1;
    assert g[n] in g;
    DigitText(g[n]);
    if n == 0 {
      ValueOne(g[0]);
      assert g == [g[0]];
    } else {
      InitHex(g);
      ValueHead(g[..n]);
      CanonicalText(g[..n]);
      HexPush(ValueOf(g[..n]), DigitOf(g[n]));
    }
    hide Hex, DigitOf, DigitChar, LowerHex, IsHex;
  }

  lemma HexPush(v: nat, d: nat)
    requires v > 0 && d < 16
    ensures Hex(16 * v + d) == Hex(v) + [DigitChar(d)]
  {
    assert (16 * v + d) / 16 == v && (16 * v + d) % 16 == d;
  }

  lemma DigitCharIs(d: nat)
    requires d < 16
    ensures IsHex(DigitChar(d)) && DigitOf(DigitChar(d)) == d
  {
  }

  lemma ValuePush(g: string, c: char)
    requires HexText(g) && IsHex(c)
    ensures HexText(g + [c]) && ValueOf(g + [c]) == 16 * ValueOf(g) + DigitOf(c)
  {
    assert (g + [c])[..|g|] == g;
  }

  lemma {:induction false} HexValue(v: nat)
    ensures HexText(Hex(v)) && ValueOf(Hex(v)) == v
  {
    DigitCharIs(v % 16);
    if v >= 16 {
      HexValue(v / 16);
      ValuePush(Hex(v / 16), DigitChar(v % 16));
    } else {
      ValueOne(DigitChar(v));
    }
  }

  lemma GroupText(g: Group)
    requires HexGroup(g)
    ensures Strip(Lower(g.text)) == Hex(ValueOf(g.text))
  {
    LowerValue(g.text);
    StripValue(Lower(g.text));
    CanonicalText(Strip(Lower(g.text)));
  }

  lemma StrippedIsHex(gs: seq<Group>)
    requires HexGroups(gs)
    ensures Stripped(LowerAll(gs)) == HexAll(Values(gs))
  {
    forall i | 0 <= i < |gs| ensures Stripped(LowerAll(gs))[i] == HexAll(Values(gs))[i] {
      GroupText(gs[i]);
    }
  }

  lemma HexIsPlain(gs: seq<Group>)
    requires HexGroups(gs)
    ensures AllPlain(gs)
  {
    forall i | 0 <= i < |gs| ensures Plain(gs[i]) {
      assert HexGroup(gs[i]);
    }
  }

  lemma HexAllPlain(ws: seq<nat>)
    ensures AllPlain(HexAll(ws))
  {
    forall i | 0 <= i < |ws| ensures Plain(HexAll(ws)[i]) {
      HexValue(ws[i]);
    }
  }

  // Different prefixes have different keys.
  lemma KeyInjective(p: seq<nat>, q: seq<nat>)
    requires |p| == |q| == 4
    ensures Key(p) == Key(q) <==> p == q
  {
    if Key(p) == Key(q) {
      var a, b := Join(HexAll(p)), Join(HexAll(q));
      assert |a| == |Key(p)| - 5 && |b| == |Key(q)| - 5;
      assert a == Key(p)[..|a|] && b == Key(q)[..|b|];
      HexAllPlain(p);
      HexAllPlain(q);
      SplitJoin(HexAll(p));
      SplitJoin(HexAll(q));
      forall i | 0 <= i < 4 ensures p[i] == q[i] {
        assert HexAll(p)[i] == HexAll(q)[i];
        HexValue(p[i]);
        HexValue(q[i]);
      }
    }
  }

  // ---- the key of a spelling ----

  lemma LowerZeros(l: seq<Group>, n: nat, r: seq<Group>)
    ensures LowerAll(l) + Zeros(n) + LowerAll(r) == LowerAll(l + Zeros(n) + r)
  {
    assert Lower("0") == "0";
    var a, b := LowerAll(l) + Zeros(n) + LowerAll(r), LowerAll(l + Zeros(n) + r);
    forall i | 0 <= i < |a| ensures a[i] == b[i] {
    }
  }

  lemma ColonIn(l: seq<Group>, r: seq<Group>)
    ensures ':' in Join(l) + "::" + Join(r)
  {
    assert (Join(l) + "::" + Join(r))[|Join(l)|] == ':';
  }

  lemma FirstFour(gs: seq<Group>)
    requires |gs| >= 4
    ensures LowerAll(gs)[..4] == LowerAll(gs[..4])
  {
  }

  // Whatever the last groups are, only the first four make the key.
  lemma KeyOfGroups(ip: string, gs: seq<Group>)
    requires ':' in ip && |gs| == 8 && Groups(ip) == LowerAll(gs) && HexGroups(gs[..4])
    ensures SenderNetwork(ip) == Key(Values(gs[..4]))
  {
    FirstFour(gs);
    StrippedIsHex(gs[..4]);
  }

  lemma ElidedKey(l: seq<Group>, r: seq<Group>, used: seq<Group>)
    requires AllPlain(l) && AllPlain(r) && |l| + |r| <= 8
    requires used == (l + Zeros(8 - |l| - |r|) + r)[..4] && HexGroups(used)
    ensures SenderNetwork(Join(l) + "::" + Join(r)) == Key(Values(used))
  {
    ElidedGroups(l, r);
    LowerZeros(l, 8 - |l| - |r|, r);
    ColonIn(l, r);
    hide Groups, LowerAll, Join, SenderNetwork, Key, Values, HexGroups, AllPlain;
    KeyOfGroups(Join(l) + "::" + Join(r), l + Zeros(8 - |l| - |r|) + r);
  }

  lemma ValuesOfElided(l: seq<Group>, n: nat, r: seq<Group>)
    requires HexGroups(l) && HexGroups(r)
    ensures HexGroups(l + Zeros(n) + r)
    ensures Values(l + Zeros(n) + r) == Values(l) + ZeroWords(n) + Values(r)
  {
    assert DigitOf('0') == 0 && ValueOf("0"[..0]) == 0 && ValueOf("0") == 0;
    var gs := l + Zeros(n) + r;
    forall i | 0 <= i < |gs|
        ensures HexGroup(gs[i]) && Values(gs[i..i + 1]) == [(Values(l) + ZeroWords(n) + Values(r))[i]] {
      if i < |l| {
        assert gs[i] == l[i];
      } else if i < |l| + n {
        assert gs[i] == Group("0");
      } else {
        assert gs[i] == r[i - |l| - n];
      }
      assert gs[i..i + 1] == [gs[i]];
    }
    forall i | 0 <= i < |gs| ensures Values(gs)[i] == (Values(l) + ZeroWords(n) + Values(r))[i] {
      assert gs[i..i + 1] == [gs[i]] && Values(gs[i..i + 1])[0] == Values(gs)[i];
    }
  }

  lemma ValuesTake(gs: seq<Group>)
    requires |gs| >= 4 && HexGroups(gs)
    ensures HexGroups(gs[..4]) && Values(gs[..4]) == Values(gs)[..4]
  {
  }

  lemma JoinColon(gs: seq<Group>)
    requires |gs| > 1
    ensures ':' in Join(gs)
  {
    assert Join(gs)[|gs[0].text|] == ':';
  }

  // Every hexadecimal spelling gets the key of its top 64 bits.
  lemma KeyIsPrefix(sp: Spelling)
    requires WellFormed(sp) && !Dotted(sp)
    ensures SenderNetwork(Text(sp)) == Key(Words(sp)[..4])
  {
    hide SenderNetwork, Key, Join, HexGroups, Values, ZeroWords;
    match sp
    case Full(gs) => FullKey(gs);
    case Elided(l, r) => ElidedSpelling(l, r);
  }

  lemma FullKey(gs: seq<Group>)
    requires |gs| == 8 && HexGroups(gs)
    ensures SenderNetwork(Join(gs)) == Key(Values(gs)[..4])
  {
    HexIsPlain(gs);
    FullGroups(gs);
    JoinColon(gs);
    ValuesTake(gs);
    hide SenderNetwork, Key, Join, HexGroups, Values, Groups, LowerAll, AllPlain;
    KeyOfGroups(Join(gs), gs);
  }

  lemma ElidedSpelling(l: seq<Group>, r: seq<Group>)
    requires |l| + |r| <= 7 && HexGroups(l) && HexGroups(r)
    ensures SenderNetwork(Join(l) + "::" + Join(r)) ==
            Key((Values(l) + ZeroWords(8 - |l| - |r|) + Values(r))[..4])
  {
    hide SenderNetwork, Key, Join, HexGroups, Values, ZeroWords, AllPlain;
    HexIsPlain(l);
    HexIsPlain(r);
    var all := l + Zeros(8 - |l| - |r|) + r;
    ValuesOfElided(l, 8 - |l| - |r|, r);
    ValuesTake(all);
    ElidedKey(l, r, all[..4]);
  }

  // Two spellings share a key exactly when their addresses share the top 64 bits.
  lemma SameKeyIff(a: Spelling, b: Spelling)
    requires WellFormed(a) && WellFormed(b) && !Dotted(a) && !Dotted(b)
    ensures SenderNetwork(Text(a)) == SenderNetwork(Text(b)) <==> Words(a)[..4] == Words(b)[..4]
  {
    KeyIsPrefix(a);
    KeyIsPrefix(b);
    KeyInjective(Words(a)[..4], Words(b)[..4]);
  }

  // Text without a colon is its own key, and nothing else gets that key.
  lemma ColonFreeKeepsApart(a: string, b: string)
    requires ':' !in a
    ensures SenderNetwork(a) == a && (SenderNetwork(b) == a <==> b == a)
  {
    if ':' in b {
      if |Groups(b)| == 8 {
        var k := |SenderNetwork(b)| - 5;
        assert SenderNetwork(b)[k] == SUFFIX[0] == ':';
      }
    }
  }

  // ---- spellings that end in a dotted quad ----

  lemma {:induction false} JoinChars(gs: seq<Group>, c: char)
    requires c != ':' && forall i :: 0 <= i < |gs| ==> c !in gs[i].text
    ensures c !in Join(gs)
  {
    if |gs| > 1 {
      JoinChars(gs[1..], c);
    }
  }

  lemma QuadChars(q: Quad)
    ensures QuadText(q) != ""
    ensures forall i :: 0 <= i < |QuadText(q)| ==> QuadText(q)[i] == '.' || '0' <= QuadText(q)[i] <= '9'
  {
  }

  lemma QuadPlain(gs: seq<Group>, q: Quad)
    requires HexGroups(gs)
    ensures AllPlain(gs + [Group(QuadText(q))]) && '/' !in QuadText(q)
  {
    QuadChars(q);
    HexIsPlain(gs);
    hide QuadText;
  }

  lemma FullDottedKey(gs: seq<Group>, q: Quad, prefix: seq<nat>)
    requires |gs| == 6 && HexGroups(gs) && QuadOk(q)
    ensures SenderNetwork(Join(gs + [Group(QuadText(q))])) == Join(gs + [Group(QuadText(q))]) != Key(prefix)
  {
    var all := gs + [Group(QuadText(q))];
    QuadPlain(gs, q);
    FullGroups(all);
    forall i | 0 <= i < |all| ensures '/' !in all[i].text {
      if i < 6 {
        assert HexGroup(gs[i]);
      }
    }
    JoinChars(all, '/');
    var k := Key(prefix);
    assert k[|k| - 3] == SUFFIX[2] == '/';
  }

  ghost predicate LeadingZeros(ws: seq<nat>, n: int) {
    forall i :: 0 <= i < n && i < |ws| ==> ws[i] == 0
  }

  // The quad counts as one group, so every group to its left lands one place too late.
  lemma {:induction false} ShiftedPrefix(l: seq<nat>, r: seq<nat>, quad: seq<nat>)
    requires |l| + |r| <= 5 && |quad| == 2
    ensures (l + ZeroWords(7 - |l| - |r|) + r)[..4] == (l + ZeroWords(6 - |l| - |r|) + r + quad)[..4]
            <==> LeadingZeros(r, |r| - 2)
  {
    var c, w := l + ZeroWords(7 - |l| - |r|) + r, l + ZeroWords(6 - |l| - |r|) + r + quad;
    if c[..4] == w[..4] {
      var j := 0;
      while j < |r| - 2
        invariant forall i :: 0 <= i < j && i < |r| ==> r[i] == 0
      {
        var i := 6 - |r| + j;
        assert w[i] == r[j] && c[i] == (if j == 0 then 0 else r[j - 1]);
        assert c[..4][i] == w[..4][i];
        j := j + 1;
      }
    }
    if LeadingZeros(r, |r| - 2) {
      forall i | 0 <= i < 4 ensures c[i] == w[i] {
        if i >= |l| && i >= 6 - |r| {
          assert w[i] == r[i - 6 + |r|];
        }
      }
      assert c[..4] == w[..4];
    }
  }

  lemma ElidedDottedKey(l: seq<Group>, r: seq<Group>, q: Quad)
    requires |l| + |r| <= 5 && HexGroups(l) && HexGroups(r) && QuadOk(q)
    ensures SenderNetwork(Join(l) + "::" + Join(r + [Group(QuadText(q))]))
            == Key((Values(l) + ZeroWords(7 - |l| - |r|) + Values(r))[..4])
  {
    var n := 7 - |l| - |r|;
    var seen := l + Zeros(n) + r;
    var tail := r + [Group(QuadText(q))];
    ValuesOfElided(l, n, r);
    ValuesTake(seen);
    AppendLast(l, Zeros(n), r, Group(QuadText(q)));
    HexIsPlain(l);
    QuadPlain(r, q);
    hide SenderNetwork, Join, Key, Values, QuadText, HexGroups, AllPlain, ZeroWords;
    ElidedKey(l, tail, seen[..4]);
  }

  lemma AppendLast(a: seq<Group>, b: seq<Group>, c: seq<Group>, x: Group)
    requires |a| + |b| + |c| >= 4
    ensures (a + b + (c + [x]))[..4] == (a + b + c)[..4]
  {
  }

  // A dotted spelling gets the key of its /64 exactly when it elides zeros and the groups right
  // of the gap, all but the last two, are zero.
  lemma DottedKeyIff(sp: Spelling)
    requires WellFormed(sp) && Dotted(sp)
    ensures SenderNetwork(Text(sp)) == Key(Words(sp)[..4])
            <==> sp.ElidedDotted? && LeadingZeros(Values(sp.right), |sp.right| - 2)
  {
    hide SenderNetwork, Key, Join, ValueOf, LeadingZeros;
    match sp
    case FullDotted(gs, q) => FullDottedKey(gs, q, Words(sp)[..4]);
    case ElidedDotted(l, r, q) =>
      ElidedDottedKey(l, r, q);
      var seen := (Values(l) + ZeroWords(7 - |l| - |r|) + Values(r))[..4];
      ShiftedPrefix(Values(l), Values(r), QuadWords(q));
      KeyInjective(seen, Words(sp)[..4]);
  }

  // The address 1:2:0:3:4:5:102:304, written 1:2::3:4:5:1.2.3.4.
  function DottedExample(): Spelling {
    ElidedDotted([Group("1"), Group("2")], [Group("3"), Group("4"), Group("5")], Quad(1, 2, 3, 4))
  }

  lemma DottedDiffers()
    ensures WellFormed(DottedExample())
    ensures SenderNetwork(Text(DottedExample())) != Key(Words(DottedExample())[..4])
  {
    hide SenderNetwork, Text, Key, Words, Join, ValueOf;
    ValueOne('3');
    assert Values(DottedExample().right)[0] == 3;
    DottedKeyIff(DottedExample());
  }

  // ---- other texts ----

  lemma CutFirst(h: string, rest: string)
    requires NoPair(h) && (h != "" ==> h[|h| - 1] != ':')
    ensures HeadOf(h + "::" + rest) == h && TailOf(h + "::" + rest) == Some(HeadOf(rest))
  {
    var s := h + "::" + rest;
    FirstPairAt(h, rest);
    assert s[..|h|] == h && s[|h| + 2..] == rest;
  }

  // What follows a second "::", which no address has, does not count.
  lemma SecondPairDropped(a: string, b: string, c: string)
    requires NoPair(Lower(a)) && (a != "" ==> a[|a| - 1] != ':')
    requires NoPair(Lower(b)) && (b != "" ==> b[|b| - 1] != ':')
    ensures Groups(a + "::" + (b + "::" + c)) == Groups(a + "::" + b)
  {
    var x, y, z := Lower(a), Lower(b), Lower(c);
    LowerPair(a, b + "::" + c);
    LowerPair(b, c);
    LowerPair(a, b);
    CutFirst(x, y + "::" + z);
    CutFirst(y, z);
    CutAt(x, y);
    hide Lower, HeadOf, TailOf, Pieces, Zeros, NoPair;
  }

  lemma LowerPair(s: string, t: string)
    ensures Lower(s + "::" + t) == Lower(s) + "::" + Lower(t)
    ensures s != "" ==> |Lower(s)| == |s| && (Lower(s)[|s| - 1] == ':' <==> s[|s| - 1] == ':')
  {
    LowerPlus(s + "::", t);
    LowerPlus(s, "::");
    assert Lower("::") == "::";
  }

  lemma ZeroKey()
    ensures Key([0, 0, 0, 0]) == "0:0:0:0::/64"
  {
    var z := Group("0");
    assert Hex(0) == "0";
    assert HexAll([0, 0, 0, 0]) == [z, z, z, z];
    assert [z, z, z, z][1..] == [z, z, z] && [z, z, z][1..] == [z, z] && [z, z][1..] == [z];
    assert Join([z, z]) == "0:0";
    assert Join([z, z, z]) == "0:0:0";
    hide HexAll, Hex;
  }

  // The loopback address is in the network of all zeros.
  lemma LoopbackKey()
    ensures SenderNetwork("::1") == "0:0:0:0::/64"
  {
    hide SenderNetwork, Key, Hex, HexAll;
    var l: seq<Group>, r := [], [Group("1")];
    assert HexGroups(r) && Values(l) == [] && |Values(r)| == 1;
    ElidedSpelling(l, r);
    assert Join(l) + "::" + Join(r) == "::1";
    assert (Values(l) + ZeroWords(7) + Values(r))[..4] == [0, 0, 0, 0];
    ZeroKey();
  }
}
