// The chart window and the placement of each bar in it. A date is what Date.parse makes
// of the string: milliseconds, or not a number.
module GanttDates {

  import opened Options

  const DAY_MS: int := 86_400_000
  const HALF_DAY_MS: int := DAY_MS / 2

  datatype Date = NaN | At(ms: int)
  datatype Row = Row(startsAt: Option<Date>, endsAt: Option<Date>)
  datatype DateRange = DateRange(start: Option<Date>, end: Option<Date>, totalDays: nat)

  // Math.round of a quotient: halves go up, also below zero.
  function RoundDays(ms: int): int {
    (ms + HALF_DAY_MS) / DAY_MS
  }

  function DayDiff(a: Date, b: Date): int {
    if a.NaN? || b.NaN? then 0 else RoundDays(b.ms - a.ms)
  }

  function AtLeastZero(n: int): nat {
    if n < 0 then 0 else n
  }

  predicate Before(a: Date, b: Date) {
    a.At? && b.At? && a.ms < b.ms
  }

  function Duration(r: Row): nat {
    if r.startsAt.Some? && r.endsAt.Some? then AtLeastZero(DayDiff(r.startsAt.value, r.endsAt.value)) else 0
  }

  function Offset(range: DateRange, r: Row): Option<int> {
    if range.start.Some? && r.startsAt.Some? then Some(DayDiff(range.start.value, r.startsAt.value)) else None
  }

  predicate Beats(a: Date, b: Date, earlier: bool) {
    if earlier then Before(a, b) else Before(b, a)
  }

  ghost predicate NoneBefore(dates: seq<Option<Date>>, n: int) {
    forall j :: 0 <= j < n && j < |dates| ==> dates[j].None?
  }

  // No scheduled date beats the pick.
  ghost predicate Unbeaten(dates: seq<Option<Date>>, pick: Date, earlier: bool) {
    forall i :: 0 <= i < |dates| && dates[i].Some? ==> !Beats(dates[i].value, pick, earlier)
  }

  // The first scheduled date does not parse.
  ghost predicate StartsUnparsed(dates: seq<Option<Date>>) {
    exists i :: 0 <= i < |dates| && dates[i] == Some(NaN) && NoneBefore(dates, i)
  }

  // The scan that keeps the first date no later date beats. `earlier` picks the direction.
  ghost predicate Extreme(dates: seq<Option<Date>>, pick: Option<Date>, earlier: bool) {
    && (pick.None? <==> NoneBefore(dates, |dates|))
    && (pick.Some? ==> pick in dates)
    && (pick.Some? && pick.value.At? ==> Unbeaten(dates, pick.value, earlier))
    && (pick.Some? && pick.value.NaN? <==> StartsUnparsed(dates))
  }

  function Starts(rows: seq<Row>): (s: seq<Option<Date>>)
    ensures |s| == |rows|
  {
    seq(|rows|, i requires 0 <= i < |rows| => rows[i].startsAt)
  }

  function Ends(rows: seq<Row>): (s: seq<Option<Date>>)
    ensures |s| == |rows|
  {
    seq(|rows|, i requires 0 <= i < |rows| => rows[i].endsAt)
  }

  // The window: earliest start and latest end. A first scheduled date that does not parse
  // is never displaced, because no comparison with it succeeds.
  method DateRangeOf(rows: seq<Row>) returns (r: DateRange)
    ensures Extreme(Starts(rows), r.start, true)
    ensures Extreme(Ends(rows), r.end, false)
    ensures r.totalDays == if r.start.Some? && r.end.Some? then AtLeastZero(DayDiff(r.start.value, r.end.value)) else 0
  {
    var start: Option<Date>, end: Option<Date> := None, None;
    for i := 0 to |rows|
      invariant Extreme(Starts(rows)[..i], start, true)
      invariant Extreme(Ends(rows)[..i], end, false)
    {
      var t := rows[i];
      ghost var s0, e0 := start, end;
      if t.startsAt.Some? && (start.None? || Before(t.startsAt.value, start.value)) {
        start := t.startsAt;
      }
      if t.endsAt.Some? && (end.None? || Before(end.value, t.endsAt.value)) {
        end := t.endsAt;
      }
      ExtremeStep(Starts(rows), i, s0, start, true);
      ExtremeStep(Ends(rows), i, e0, end, false);
    }
    assert Starts(rows)[..|rows|] == Starts(rows) && Ends(rows)[..|rows|] == Ends(rows);
    r := DateRange(start, end, if start.Some? && end.Some? then AtLeastZero(DayDiff(start.value, end.value)) else 0);
  }

  lemma NoneMore(dates: seq<Option<Date>>, d: Option<Date>)
    ensures NoneBefore(dates + [d], |dates| + 1) <==> NoneBefore(dates, |dates|) && d.None?
  {
    if NoneBefore(dates + [d], |dates| + 1) {
      assert (dates + [d])[|dates|] == d;
      forall j | 0 <= j < |dates| ensures dates[j].None? {
        assert (dates + [d])[j] == dates[j];
      }
    }
  }

  lemma UnbeatenMore(dates: seq<Option<Date>>, d: Option<Date>, pick: Date, earlier: bool)
    ensures Unbeaten(dates + [d], pick, earlier) <==>
            Unbeaten(dates, pick, earlier) && (d.Some? ==> !Beats(d.value, pick, earlier))
  {
    var b := dates + [d];
    assert b[|dates|] == d;
    if Unbeaten(b, pick, earlier) {
      forall i | 0 <= i < |dates| && dates[i].Some? ensures !Beats(dates[i].value, pick, earlier) {
        assert b[i] == dates[i];
      }
    }
  }

  lemma UnparsedMore(dates: seq<Option<Date>>, d: Option<Date>)
    ensures StartsUnparsed(dates + [d]) <==> StartsUnparsed(dates) || (NoneBefore(dates, |dates|) && d == Some(NaN))
  {
    var b := dates + [d];
    if StartsUnparsed(b) {
      var i :| 0 <= i < |b| && b[i] == Some(NaN) && NoneBefore(b, i);
      forall j | 0 <= j < i && j < |dates| ensures dates[j].None? {
        assert b[j] == dates[j];
      }
      assert NoneBefore(dates, i);
    }
    if StartsUnparsed(dates) {
      var i :| 0 <= i < |dates| && dates[i] == Some(NaN) && NoneBefore(dates, i);
      assert b[i] == Some(NaN) && NoneBefore(b, i);
    }
    if NoneBefore(dates, |dates|) && d == Some(NaN) {
      assert b[|dates|] == d && NoneBefore(b, |dates|);
    }
  }

  // A date that beats the pick beats whatever the pick beats.
  lemma UnbeatenByBetter(dates: seq<Option<Date>>, a: Date, b: Date, earlier: bool)
    requires Unbeaten(dates, b, earlier) && Beats(a, b, earlier)
    ensures Unbeaten(dates, a, earlier)
  {
  }

  lemma UnbeatenAlone(dates: seq<Option<Date>>, a: Date, earlier: bool)
    requires NoneBefore(dates, |dates|)
    ensures Unbeaten(dates, a, earlier)
  {
  }

  lemma ExtremeStep(dates: seq<Option<Date>>, i: nat, old_: Option<Date>, new_: Option<Date>, earlier: bool)
    requires i < |dates| && Extreme(dates[..i], old_, earlier)
    requires var better := dates[i].Some? && (old_.None? || Beats(dates[i].value, old_.value, earlier));
             new_ == if better then dates[i] else old_
    ensures Extreme(dates[..i + 1], new_, earlier)
  {
    var before, d := dates[..i], dates[i];
    assert dates[..i + 1] == before + [d];
    NoneMore(before, d);
    UnparsedMore(before, d);
    if new_.Some? {
      UnbeatenMore(before, d, new_.value, earlier);
    }
    if d.Some? && old_.None? {
      UnbeatenAlone(before, d.value, earlier);
    } else if d.Some? && old_.Some? && old_.value.At? && Beats(d.value, old_.value, earlier) {
      UnbeatenByBetter(before, d.value, old_.value, earlier);
    }
    hide NoneBefore, Unbeaten, StartsUnparsed;
  }

  // ---- every bar stays in the window, up to one day ----

  // Both parts of a bar round up and their sum does not.
  predicate BothRoundUp(lead: int, length: int) {
    lead % DAY_MS >= HALF_DAY_MS && length % DAY_MS >= HALF_DAY_MS
        && lead % DAY_MS + length % DAY_MS < DAY_MS + HALF_DAY_MS
  }

  lemma RoundSum(a: int, b: int)
    requires a >= 0 && b >= 0
    ensures RoundDays(a) >= 0
    ensures RoundDays(a) + RoundDays(b) <= RoundDays(a + b) + 1
    ensures (RoundDays(a) + RoundDays(b) == RoundDays(a + b) + 1) <==>
            BothRoundUp(a, b)
  {
    var qa, ra, qb, rb := a / DAY_MS, a % DAY_MS, b / DAY_MS, b % DAY_MS;
    RoundSplit(a, qa, ra);
    RoundSplit(b, qb, rb);
    if ra + rb < DAY_MS {
      RoundSplit(a + b, qa + qb, ra + rb);
    } else {
      RoundSplit(a + b, qa + qb + 1, ra + rb - DAY_MS);
    }
  }

  lemma RoundSplit(ms: int, q: int, r: int)
    requires ms == q * DAY_MS + r && 0 <= r < DAY_MS
    ensures RoundDays(ms) == if r < HALF_DAY_MS then q else q + 1
  {
  }

  lemma RoundMonotone(a: int, b: int)
    requires a <= b
    ensures RoundDays(a) <= RoundDays(b)
  {
  }

  ghost predicate Scheduled(r: Row) {
    r.startsAt.Some? && r.endsAt.Some? && r.startsAt.value.At? && r.endsAt.value.At?
        && r.startsAt.value.ms <= r.endsAt.value.ms
  }

  ghost predicate AllParse(rows: seq<Row>) {
    forall r <- rows :: r.startsAt != Some(NaN) && r.endsAt != Some(NaN)
  }

  ghost predicate IsRangeOf(rows: seq<Row>, range: DateRange) {
    && Extreme(Starts(rows), range.start, true)
    && Extreme(Ends(rows), range.end, false)
    && range.totalDays == if range.start.Some? && range.end.Some?
        then AtLeastZero(DayDiff(range.start.value, range.end.value)) else 0
  }

  lemma WindowHolds(rows: seq<Row>, range: DateRange, r: Row)
    requires AllParse(rows) && IsRangeOf(rows, range) && r in rows && Scheduled(r)
    ensures range.start.Some? && range.start.value.At? && range.start.value.ms <= r.startsAt.value.ms
    ensures range.end.Some? && range.end.value.At? && r.endsAt.value.ms <= range.end.value.ms
  {
    var k :| 0 <= k < |rows| && rows[k] == r;
    assert Starts(rows)[k] == r.startsAt && Ends(rows)[k] == r.endsAt;
    forall i | 0 <= i < |rows| ensures Starts(rows)[i] != Some(NaN) && Ends(rows)[i] != Some(NaN) {
      assert rows[i] in rows;
    }
  }

  lemma OverrunIff(s: int, e: int, lo: int, hi: int)
    requires lo <= s <= e <= hi
    ensures RoundDays(s - lo) >= 0 && RoundDays(e - s) >= 0 && RoundDays(hi - lo) >= 0
    ensures RoundDays(s - lo) + RoundDays(e - s) > RoundDays(hi - lo) <==>
            BothRoundUp(s - lo, e - s) && RoundDays(hi - lo) == RoundDays(e - lo)
    ensures RoundDays(s - lo) + RoundDays(e - s) <= RoundDays(hi - lo) + 1
  {
    RoundSum(s - lo, e - s);
    RoundSum(e - s, 0);
    RoundMonotone(e - lo, hi - lo);
    RoundSum(hi - lo, 0);
    hide RoundDays, BothRoundUp;
  }

  // A bar starts in the window and overruns its end by at most one day.
  lemma BarWithinWindow(rows: seq<Row>, range: DateRange, r: Row)
    requires AllParse(rows) && IsRangeOf(rows, range) && r in rows && Scheduled(r)
    ensures Offset(range, r).Some? && Offset(range, r).value >= 0
    ensures Offset(range, r).value + Duration(r) <= range.totalDays + 1
  {
    WindowHolds(rows, range, r);
    OverrunIff(r.startsAt.value.ms, r.endsAt.value.ms, range.start.value.ms, range.end.value.ms);
    hide RoundDays, BothRoundUp, Extreme, AllParse;
  }

  // A bar overruns the chart exactly when both its parts round up, their sum does not, and
  // its end rounds to the same day as the end of the chart.
  lemma BarOverrunsIff(rows: seq<Row>, range: DateRange, r: Row)
    requires AllParse(rows) && IsRangeOf(rows, range) && r in rows && Scheduled(r)
    ensures range.start.Some? && range.start.value.At? && range.end.Some? && range.end.value.At?
    ensures var s, e, lo, hi := r.startsAt.value.ms, r.endsAt.value.ms, range.start.value.ms, range.end.value.ms;
            Offset(range, r).value + Duration(r) > range.totalDays <==>
              BothRoundUp(s - lo, e - s) && RoundDays(hi - lo) == RoundDays(e - lo)
  {
    WindowHolds(rows, range, r);
    OverrunIff(r.startsAt.value.ms, r.endsAt.value.ms, range.start.value.ms, range.end.value.ms);
    hide RoundDays, BothRoundUp, Extreme, AllParse;
  }

  // Half a day in, half a day long: the middle bar overruns although another one ends the chart.
  lemma MiddleBarOverruns()
    ensures var middle := Row(Some(At(HALF_DAY_MS)), Some(At(DAY_MS)));
            var rows := [Row(Some(At(0)), Some(At(0))), middle, Row(Some(At(0)), Some(At(DAY_MS + 1)))];
            var range := DateRange(Some(At(0)), Some(At(DAY_MS + 1)), 1);
            && AllParse(rows) && IsRangeOf(rows, range) && Scheduled(middle) && middle in rows
            && range.end != middle.endsAt && Offset(range, middle).value + Duration(middle) > range.totalDays
  {
    var middle := Row(Some(At(HALF_DAY_MS)), Some(At(DAY_MS)));
    var rows := [Row(Some(At(0)), Some(At(0))), middle, Row(Some(At(0)), Some(At(DAY_MS + 1)))];
    assert Starts(rows)[0] == Some(At(0)) && Ends(rows)[2] == Some(At(DAY_MS + 1));
    assert rows[1] == middle;
  }

  // Dates whole days apart never overrun.
  lemma WholeDaysFit(rows: seq<Row>, range: DateRange, r: Row)
    requires AllParse(rows) && IsRangeOf(rows, range) && r in rows && Scheduled(r)
    requires range.start.Some? && range.start.value.At? && (r.endsAt.value.ms - r.startsAt.value.ms) % DAY_MS == 0
    ensures Offset(range, r).value + Duration(r) <= range.totalDays
  {
    WindowHolds(rows, range, r);
    OverrunIff(r.startsAt.value.ms, r.endsAt.value.ms, range.start.value.ms, range.end.value.ms);
    hide RoundDays, Extreme, AllParse;
  }

  // ---- the placement of a single bar ----

  // The nearest whole number of days, the later one of two equally near.
  lemma NearestDay(ms: int)
    ensures RoundDays(ms) * DAY_MS - DAY_MS / 2 <= ms < RoundDays(ms) * DAY_MS + DAY_MS / 2
  {
    RoundSplit(ms, ms / DAY_MS, ms % DAY_MS);
  }

  // A bar without two parsed ends in order has no length; its place is unknown without a start or
  // a window, and the first day when one of them does not parse.
  lemma BarTells(range: DateRange, r: Row)
    ensures Duration(r) ==
            match (r.startsAt, r.endsAt)
            case (Some(At(s)), Some(At(e))) => if s <= e then RoundDays(e - s) else 0
            case _ => 0
    ensures Offset(range, r) ==
            match (range.start, r.startsAt)
            case (Some(At(lo)), Some(At(s))) => Some(RoundDays(s - lo))
            case (Some(_), Some(_)) => Some(0)
            case _ => None
  {
    if r.startsAt.Some? && r.endsAt.Some? && r.startsAt.value.At? && r.endsAt.value.At? {
      NearestDay(r.endsAt.value.ms - r.startsAt.value.ms);
    }
  }
}
