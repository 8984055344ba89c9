// The fixed-window counter of failed coupon attempts, with its purge and overflow clear.
module FailureLimiter {

  import opened Options

  datatype Key = Key(text: string)
  datatype Hit = Hit(n: nat, until: int)

  const LIMITER_KEYS_MAX: nat := 10_000

  type Hits = map<Key, Hit>

  function Counted(hits: Hits, key: Key, t: int, windowMs: int): Hits {
    if key in hits && hits[key].until > t then hits[key := Hit(hits[key].n + 1, hits[key].until)]
    else hits[key := Hit(1, t + windowMs)]
  }

  function Purged(hits: Hits, t: int): Hits {
    map k | k in hits && hits[k].until > t :: hits[k]
  }

  // More than the cap even after the purge: everything is forgotten.
  predicate Overflows(hits: Hits, key: Key, t: int, windowMs: int) {
    |Purged(Counted(hits, key, t, windowMs), t)| > LIMITER_KEYS_MAX
  }

  function Failed(hits: Hits, key: Key, t: int, windowMs: int): Hits {
    var c := Counted(hits, key, t, windowMs);
    if |c| <= LIMITER_KEYS_MAX then c
    else if Overflows(hits, key, t, windowMs) then map[]
    else Purged(c, t)
  }

  predicate IsBlocked(h: Option<Hit>, now: int, max: nat) {
    h.Some? && h.value.until > now && h.value.n >= max
  }

  function At(hits: Hits, key: Key): Option<Hit> {
    if key in hits then Some(hits[key]) else None
  }

  class FailureLimiter {
    const max: nat
    const windowMs: int
    var hits: Hits
    ghost var past: seq<Failure>

    // The map is what the failures so far have left in it.
    ghost predicate Valid()
      reads this
    {
      hits == HitsAfter(past, windowMs)
    }

    constructor (max: nat, windowMs: int)
      ensures Valid() && past == [] && this.max == max && this.windowMs == windowMs
    {
      this.max, this.windowMs := max, windowMs;
      hits, past := map[], [];
    }

    // The answer of a counter that keeps every failure, as long as the clear has not fired.
    method Blocked(key: Key, now: int) returns (b: bool)
      requires Valid()
      ensures b == IsBlocked(At(hits, key), now, max)
      ensures ClockForward(past) && NeverOverflows(past, windowMs) && (past != [] ==> past[|past| - 1].at <= now) ==>
                b == IsBlocked(Window(past, key, windowMs), now, max)
    {
      hide Window, HitsAfter, NeverOverflows, ClockForward;
      if ClockForward(past) && NeverOverflows(past, windowMs) && (past != [] ==> past[|past| - 1].at <= now) {
        BlockedIsExact(past, windowMs, max, key, now);
      }
      b := key in hits && hits[key].until > now && hits[key].n >= max;
    }

    method Fail(key: Key, now: int)
      requires Valid()
      modifies this
      ensures Valid() && past == old(past) + [Failure(key, now)]
      ensures hits == Failed(old(hits), key, now, windowMs)
      ensures |hits| <= LIMITER_KEYS_MAX
    {
      NeverOverCap(past, windowMs);
      assert (past + [Failure(key, now)])[..|past|] == past;
      past := past + [Failure(key, now)];
      if key in hits && hits[key].until > now {
        hits := hits[key := Hit(hits[key].n + 1, hits[key].until)];
      } else {
        hits := hits[key := Hit(1, now + windowMs)];
      }
      if |hits| > LIMITER_KEYS_MAX {
        Purge(now);
        if |hits| > LIMITER_KEYS_MAX {
          hits := map[];
        }
      }
    }

    method Purge(now: int)
      modifies this`hits
      ensures hits == Purged(old(hits), now)
    {
      ghost var before := hits;
      var todo := hits.Keys;
      while todo != {}
        invariant todo <= before.Keys
        invariant hits == map k | k in before && (k in todo || before[k].until > now) :: before[k]
        decreases todo
      {
        var k :| k in todo;
        if hits[k].until <= now {
          hits := hits - {k};
        }
        todo := todo - {k};
      }
    }
  }

  // ---- against a counter that never forgets ----

  datatype Failure = Failure(key: Key, at: int)

  // Fixed windows over the whole history: a failure past the window opens the next one.
  function Window(past: seq<Failure>, key: Key, windowMs: int): Option<Hit> {
    if past == [] then None
    else
      var f := past[|past| - 1];
      var w := Window(past[..|past| - 1], key, windowMs);
      if f.key != key then w
      else if w.Some? && w.value.until > f.at then Some(Hit(w.value.n + 1, w.value.until))
      else Some(Hit(1, f.at + windowMs))
  }

  function CountOf(past: seq<Failure>, key: Key): nat {
    if past == [] then 0
    else CountOf(past[..|past| - 1], key) + if past[|past| - 1].key == key then 1 else 0
  }

  // The window is a real one: it opened at a failure of the key and counts every one since.
  lemma {:induction false} WindowOpens(past: seq<Failure>, key: Key, windowMs: int) returns (i: nat)
    requires Window(past, key, windowMs).Some? && windowMs > 0
    ensures var w := Window(past, key, windowMs).value;
            && i < |past| && past[i].key == key && w.until == past[i].at + windowMs
            && w.n == CountOf(past, key) - CountOf(past[..i], key)
            && forall j :: i <= j < |past| && past[j].key == key ==> past[j].at < w.until
  {
    var n := |past| - 1;
    var f := past[n];
    var w := Window(past[..n], key, windowMs);
    if f.key == key && !(w.Some? && w.value.until > f.at) {
      i := n;
    } else {
      i := WindowOpens(past[..n], key, windowMs);
      assert past[..n][..i] == past[..i];
      assert forall j :: 0 <= j < n ==> past[..n][j] == past[j];
    }
  }

  // Every key agrees with the full history, or was purged after its window ended.
  ghost predicate Agrees(hits: Hits, past: seq<Failure>, windowMs: int, now: int) {
    forall k :: At(hits, k) == Window(past, k, windowMs) ||
                (k !in hits && Window(past, k, windowMs).Some? && Window(past, k, windowMs).value.until <= now)
  }

  lemma AgreesLater(hits: Hits, past: seq<Failure>, windowMs: int, now: int, later: int)
    requires Agrees(hits, past, windowMs, now) && now <= later
    ensures Agrees(hits, past, windowMs, later)
  {
  }

  lemma FailAgrees(hits: Hits, past: seq<Failure>, windowMs: int, now: int, f: Failure)
    requires Agrees(hits, past, windowMs, now) && now <= f.at && !Overflows(hits, f.key, f.at, windowMs)
    ensures Agrees(Failed(hits, f.key, f.at, windowMs), past + [f], windowMs, f.at)
  {
    assert (past + [f])[..|past|] == past;
    var c := Counted(hits, f.key, f.at, windowMs);
    forall k ensures At(c, k) == Window(past + [f], k, windowMs) ||
                     (k !in c && Window(past + [f], k, windowMs).Some?
                         && Window(past + [f], k, windowMs).value.until <= f.at)
    {
      assert At(hits, k) == Window(past, k, windowMs) ||
             (k !in hits && Window(past, k, windowMs).Some? && Window(past, k, windowMs).value.until <= now);
    }
    hide Window, Counted;
  }

  lemma AgreesBlocks(hits: Hits, past: seq<Failure>, windowMs: int, now: int, key: Key, max: nat)
    requires Agrees(hits, past, windowMs, now)
    ensures IsBlocked(At(hits, key), now, max) == IsBlocked(Window(past, key, windowMs), now, max)
  {
    assert At(hits, key) == Window(past, key, windowMs) ||
           (key !in hits && Window(past, key, windowMs).Some? && Window(past, key, windowMs).value.until <= now);
  }

  // ---- whole runs ----

  function HitsAfter(past: seq<Failure>, windowMs: int): Hits {
    if past == [] then map[]
    else
      var f := past[|past| - 1];
      Failed(HitsAfter(past[..|past| - 1], windowMs), f.key, f.at, windowMs)
  }

  predicate ClockForward(past: seq<Failure>) {
    forall i, j :: 0 <= i < j < |past| ==> past[i].at <= past[j].at
  }

  ghost predicate NeverOverflows(past: seq<Failure>, windowMs: int) {
    forall i {:trigger past[i]} :: 0 <= i < |past|
        ==> !Overflows(HitsAfter(past[..i], windowMs), past[i].key, past[i].at, windowMs)
  }

  lemma {:induction false} NeverOverCap(past: seq<Failure>, windowMs: int)
    ensures |HitsAfter(past, windowMs)| <= LIMITER_KEYS_MAX
  {
    if past != [] {
      NeverOverCap(past[..|past| - 1], windowMs);
    }
  }

  lemma {:induction false} RunAgrees(past: seq<Failure>, windowMs: int, now: int)
    requires ClockForward(past) && NeverOverflows(past, windowMs) && (past != [] ==> past[|past| - 1].at <= now)
    ensures Agrees(HitsAfter(past, windowMs), past, windowMs, now)
  {
    if past == [] {
    } else {
      var n := |past| - 1;
      InitRuns(past, windowMs);
      RunAgrees(past[..n], windowMs, past[n].at);
      StepAgrees(past, windowMs, now);
    }
  }

  lemma StepAgrees(past: seq<Failure>, windowMs: int, now: int)
    requires past != [] && past[|past| - 1].at <= now
    requires var n := |past| - 1;
             && Agrees(HitsAfter(past[..n], windowMs), past[..n], windowMs, past[n].at)
             && !Overflows(HitsAfter(past[..n], windowMs), past[n].key, past[n].at, windowMs)
    ensures Agrees(HitsAfter(past, windowMs), past, windowMs, now)
  {
    hide Agrees, Overflows, Failed, Window;
    var n := |past| - 1;
    FailAgrees(HitsAfter(past[..n], windowMs), past[..n], windowMs, past[n].at, past[n]);
    assert past == past[..n] + [past[n]];
    AgreesLater(HitsAfter(past, windowMs), past, windowMs, past[n].at, now);
  }

  lemma InitRuns(past: seq<Failure>, windowMs: int)
    requires past != [] && ClockForward(past) && NeverOverflows(past, windowMs)
    ensures var n := |past| - 1;
            && ClockForward(past[..n]) && NeverOverflows(past[..n], windowMs)
            && !Overflows(HitsAfter(past[..n], windowMs), past[n].key, past[n].at, windowMs)
            && (n > 0 ==> past[n - 1].at <= past[n].at)
  {
    var n := |past| - 1;
    var init := past[..n];
    forall i | 0 <= i < n ensures !Overflows(HitsAfter(init[..i], windowMs), init[i].key, init[i].at, windowMs) {
      assert init[..i] == past[..i] && init[i] == past[i];
    }
    assert !Overflows(HitsAfter(past[..n], windowMs), past[n].key, past[n].at, windowMs);
    hide Overflows, HitsAfter;
  }

  // While the overflow clear has not fired, every answer is the one a counter that keeps
  // the whole history would give.
  lemma BlockedIsExact(past: seq<Failure>, windowMs: int, max: nat, key: Key, now: int)
    requires ClockForward(past) && NeverOverflows(past, windowMs)
    requires past != [] ==> past[|past| - 1].at <= now
    ensures IsBlocked(At(HitsAfter(past, windowMs), key), now, max) == IsBlocked(Window(past, key, windowMs), now, max)
  {
    RunAgrees(past, windowMs, now);
    AgreesBlocks(HitsAfter(past, windowMs), past, windowMs, now, key, max);
  }

  function KeysOf(past: seq<Failure>): set<Key> {
    set i | 0 <= i < |past| :: past[i].key
  }

  lemma {:induction false} WindowKeys(past: seq<Failure>, key: Key, windowMs: int)
    ensures Window(past, key, windowMs).Some? <==> key in KeysOf(past)
  {
    if past != [] {
      var n := |past| - 1;
      WindowKeys(past[..n], key, windowMs);
      assert KeysOf(past) == KeysOf(past[..n]) + {past[n].key};
    }
  }

  // Keys whose window is still open, by the full history.
  function OpenKeys(past: seq<Failure>, windowMs: int, t: int): set<Key> {
    set k | k in KeysOf(past) && Window(past, k, windowMs).Some? && Window(past, k, windowMs).value.until > t
  }

  lemma ClockPrefix(past: seq<Failure>, f: Failure)
    requires ClockForward(past + [f])
    ensures ClockForward(past) && (past != [] ==> past[|past| - 1].at <= f.at)
  {
    var all := past + [f];
    assert forall i :: 0 <= i < |past| ==> all[i] == past[i];
    assert all[|past|] == f;
  }

  // The first clear fires exactly when the history has more than the cap of keys whose
  // window is still open.
  lemma OverflowIff(past: seq<Failure>, windowMs: int, f: Failure)
    requires windowMs > 0 && ClockForward(past + [f]) && NeverOverflows(past, windowMs)
    ensures Overflows(HitsAfter(past, windowMs), f.key, f.at, windowMs)
            <==> |OpenKeys(past + [f], windowMs, f.at)| > LIMITER_KEYS_MAX
  {
    ClockPrefix(past, f);
    RunAgrees(past, windowMs, f.at);
    var hits := HitsAfter(past, windowMs);
    hide ClockForward, NeverOverflows, Agrees, HitsAfter, OpenKeys;
    LiveKeys(hits, past, windowMs, f);
  }

  lemma LiveKeys(hits: Hits, past: seq<Failure>, windowMs: int, f: Failure)
    requires windowMs > 0 && Agrees(hits, past, windowMs, f.at)
    ensures |Purged(Counted(hits, f.key, f.at, windowMs), f.at)| == |OpenKeys(past + [f], windowMs, f.at)|
  {
    var all := past + [f];
    var p := Purged(Counted(hits, f.key, f.at, windowMs), f.at);
    assert all[..|past|] == past;
    forall k ensures k in p.Keys <==> k in OpenKeys(all, windowMs, f.at) {
      WindowKeys(all, k, windowMs);
      assert At(hits, k) == Window(past, k, windowMs) ||
             (k !in hits && Window(past, k, windowMs).Some? && Window(past, k, windowMs).value.until <= f.at);
    }
    assert p.Keys == OpenKeys(all, windowMs, f.at);
    assert |p| == |p.Keys|;
  }

  // ---- what a block means ----

  // The failure of the key that opened its last window.
  function OpenedBy(past: seq<Failure>, key: Key, windowMs: int): (o: Option<nat>)
    ensures o.Some? ==> o.value < |past| && past[o.value].key == key
  {
    if past == [] then None
    else
      var n := |past| - 1;
      var o := OpenedBy(past[..n], key, windowMs);
      if past[n].key != key || (o.Some? && past[n].at < past[o.value].at + windowMs) then o else Some(n)
  }

  // Failures of the key from index i on.
  function CountFrom(past: seq<Failure>, key: Key, i: nat): nat {
    if |past| <= i then 0
    else
      var n := |past| - 1;
      CountFrom(past[..n], key, i) + if past[n].key == key then 1 else 0
  }

  lemma {:induction false} WindowIs(past: seq<Failure>, key: Key, windowMs: int)
    ensures var o := OpenedBy(past, key, windowMs);
            Window(past, key, windowMs) ==
            if o.None? then None else Some(Hit(CountFrom(past, key, o.value), past[o.value].at + windowMs))
  {
    if past != [] {
      var n := |past| - 1;
      WindowIs(past[..n], key, windowMs);
      assert CountFrom(past[..n], key, n) == 0;
    }
  }

  // The key is blocked exactly while its last window is open, counted from the failure that opened
  // it, and at least max failures, that one included, have come since.
  lemma BlockedTells(past: seq<Failure>, windowMs: int, max: nat, key: Key, now: int)
    ensures var o := OpenedBy(past, key, windowMs);
            IsBlocked(Window(past, key, windowMs), now, max) <==>
              o.Some? && now < past[o.value].at + windowMs && max <= CountFrom(past, key, o.value)
  {
    WindowIs(past, key, windowMs);
    hide Window, OpenedBy, CountFrom;
  }

  // ---- what one failure leaves behind ----

  // The failing key is counted in its open window or opens one, and the others stay.
  function CountedAt(hits: Hits, key: Key, t: int, windowMs: int, k: Key): Option<Hit> {
    if k != key then At(hits, k)
    else if key in hits && hits[key].until > t then Some(Hit(hits[key].n + 1, hits[key].until))
    else Some(Hit(1, t + windowMs))
  }

  predicate IsOpen(h: Option<Hit>, t: int) {
    h.Some? && h.value.until > t
  }

  function OpenSet(hits: Hits, key: Key, t: int, windowMs: int): set<Key> {
    set k | k in hits.Keys + {key} && IsOpen(CountedAt(hits, key, t, windowMs, k), t)
  }

  lemma CountedIs(hits: Hits, key: Key, t: int, windowMs: int, k: Key)
    ensures At(Counted(hits, key, t, windowMs), k) == CountedAt(hits, key, t, windowMs, k)
    ensures Counted(hits, key, t, windowMs).Keys == hits.Keys + {key}
  {
  }

  lemma PurgedIs(hits: Hits, key: Key, t: int, windowMs: int)
    ensures Purged(Counted(hits, key, t, windowMs), t).Keys == OpenSet(hits, key, t, windowMs)
  {
    forall k ensures k in Purged(Counted(hits, key, t, windowMs), t) <==> k in OpenSet(hits, key, t, windowMs) {
      CountedIs(hits, key, t, windowMs, k);
    }
    hide Counted;
  }

  lemma SizeOf(hits: Hits)
    ensures |hits| == |hits.Keys|
  {
  }

  // With more than 10,000 keys those whose window is over go, and all of them if that is not
  // enough.
  lemma FailTells(hits: Hits, key: Key, t: int, windowMs: int, k: Key)
    ensures var now := CountedAt(hits, key, t, windowMs, k);
            At(Failed(hits, key, t, windowMs), k) ==
            if |hits.Keys + {key}| <= 10_000 then now
            else if |OpenSet(hits, key, t, windowMs)| <= 10_000 && IsOpen(now, t) then now
            else None
  {
    var c := Counted(hits, key, t, windowMs);
    CountedIs(hits, key, t, windowMs, k);
    PurgedIs(hits, key, t, windowMs);
    SizeOf(c);
    SizeOf(Purged(c, t));
    hide Counted, CountedAt, OpenSet;
  }
}
