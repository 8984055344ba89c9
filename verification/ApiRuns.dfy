// What a request made of the iOS client is answered, in every interleaving: its outcome read
// off the replies it got.
module ApiRuns {

  import opened Options
  import opened ApiClient

  // ---- the replies of one request ----

  function AnswersTo(steps: seq<Step>, id: ReqId): seq<Reply> {
    if steps == [] then []
    else
      var s := steps[|steps| - 1];
      AnswersTo(steps[..|steps| - 1], id) + if s.Answer? && s.id == id then [s.reply] else []
  }

  // Whether it was started, and as an anonymous one.
  function StartOf(steps: seq<Step>, id: ReqId): Option<bool> {
    if steps == [] then None
    else
      var s := steps[|steps| - 1];
      if s.Start? && s.id == id then Some(s.anonymous) else StartOf(steps[..|steps| - 1], id)
  }

  function ExpiriesIn(anonymous: bool, answers: seq<Reply>): nat {
    if answers == [] then 0
    else
      ExpiriesIn(anonymous, answers[..|answers| - 1])
          + if IsExpiry(anonymous, answers[|answers| - 1]) then 1 else 0
  }

  // None of them ended the request: each was retryable, or the one 401 it was refreshed for.
  ghost predicate AllPassed(anonymous: bool, answers: seq<Reply>) {
    && ExpiriesIn(anonymous, answers) <= 1
    && forall i :: 0 <= i < |answers| ==> IsRetryable(anonymous, answers[i]) || IsExpiry(anonymous, answers[i])
  }

  // The last reply is what the outcome says, and a request gives up on a reply it may retry only
  // after max retries.
  ghost predicate Explained(max: nat, anonymous: bool, answers: seq<Reply>, outcome: Outcome) {
    && answers != []
    && AllPassed(anonymous, answers[..|answers| - 1])
    && var last := answers[|answers| - 1];
       && (outcome == Returned <==> last == Success)
       && (outcome == SessionExpired <==> IsExpiry(anonymous, last))
       && (outcome == GaveUp && IsRetryable(anonymous, last) ==>
             |answers| == max + 1 + ExpiriesIn(anonymous, answers))
  }

  ghost predicate Told(max: nat, anonymous: bool, answers: seq<Reply>, r: Req) {
    var u := ExpiriesIn(anonymous, answers);
    match r
    case Sending(a, refreshed, anon, sends) =>
      anon == anonymous && AllPassed(anonymous, answers) && |answers| == a + u && sends == |answers| + 1 && a <= max
          && u == (if refreshed then 1 else 0)
    case Sleeping(a, refreshed, anon, sends) =>
      anon == anonymous && AllPassed(anonymous, answers) && |answers| == a + u && sends == |answers| && a <= max
          && u == (if refreshed then 1 else 0)
    case Waiting(a, sends) =>
      && !anonymous && AllPassed(anonymous, answers) && |answers| == a + 1 == sends && u == 1 && a <= max
      && IsExpiry(anonymous, answers[a])
    case Woken(_, a, sends) =>
      && !anonymous && AllPassed(anonymous, answers) && |answers| == a + 1 == sends && u == 1 && a <= max
      && IsExpiry(anonymous, answers[a])
    case Done(outcome, sends) => |answers| == sends && Explained(max, anonymous, answers, outcome)
  }

  lemma PassedPush(anonymous: bool, answers: seq<Reply>, r: Reply)
    ensures (answers + [r])[..|answers|] == answers && (answers + [r])[|answers|] == r
    ensures ExpiriesIn(anonymous, answers + [r]) ==
            ExpiriesIn(anonymous, answers) + if IsExpiry(anonymous, r) then 1 else 0
    ensures (&& AllPassed(anonymous, answers) && ExpiriesIn(anonymous, answers + [r]) <= 1
             && (IsRetryable(anonymous, r) || IsExpiry(anonymous, r))) ==> AllPassed(anonymous, answers + [r])
  {
    assert (answers + [r])[..|answers|] == answers;
  }

  lemma AnswerTold(max: nat, c: Client, id: ReqId, anonymous: bool, answers: seq<Reply>, reply: Reply)
    requires id in c.reqs && c.reqs[id].Sending? && Told(max, anonymous, answers, c.reqs[id])
    ensures var d := Next(max, c, Answer(id, reply));
            id in d.reqs && Told(max, anonymous, answers + [reply], d.reqs[id])
  {
    PassedPush(anonymous, answers, reply);
    hide AllPassed, ExpiriesIn;
  }

  // A refused refresh ends the request with the 401 it was asked for.
  lemma WokenTold(max: nat, anonymous: bool, answers: seq<Reply>, a: nat)
    requires !anonymous && AllPassed(anonymous, answers) && |answers| == a + 1 && ExpiriesIn(anonymous, answers) == 1
    requires IsExpiry(anonymous, answers[|answers| - 1])
    ensures Explained(max, anonymous, answers, SessionExpired)
  {
  }

  lemma StepTold(max: nat, c: Client, s: Step, id: ReqId, anonymous: bool, answers: seq<Reply>)
    requires Enabled(c, s) && id in c.reqs && Told(max, anonymous, answers, c.reqs[id])
    ensures var d := Next(max, c, s);
            && id in d.reqs
            && Told(max, anonymous, answers + if s.Answer? && s.id == id then [s.reply] else [], d.reqs[id])
  {
    assert answers + [] == answers;
    if s.Answer? && s.id == id {
      AnswerTold(max, c, id, anonymous, answers, s.reply);
    } else if s.Resume? && s.id == id {
      WokenTold(max, anonymous, answers, c.reqs[id].attempt);
    }
    hide AllPassed, ExpiriesIn, Explained;
  }

  lemma StartTold(max: nat, anonymous: bool)
    ensures Told(max, anonymous, [], Sending(0, false, anonymous, 1))
  {
  }

  lemma {:induction false} RunsInit(max: nat, c: Client, steps: seq<Step>)
    requires steps != [] && Runs(max, c, steps)
    ensures var n := |steps| - 1;
            && Runs(max, c, steps[..n]) && Enabled(After(max, c, steps[..n]), steps[n])
            && After(max, c, steps) == Next(max, After(max, c, steps[..n]), steps[n])
    decreases |steps|
  {
    var n := |steps| - 1;
    if n > 0 {
      RunsInit(max, Next(max, c, steps[0]), steps[1..]);
      assert steps[1..][..n - 1] == steps[..n][1..] && steps[..n][0] == steps[0];
    }
  }

  // In every interleaving a request that has ended was sent once per reply it got. It returned
  // exactly when the last one is a success, expired the session exactly when that is a 401, and
  // gave up on a reply it may retry only after all its retries; every reply before the last was
  // retryable, or the one 401 it was refreshed for.
  lemma {:induction false} OutcomeTells(max: nat, steps: seq<Step>, id: ReqId)
    requires Runs(max, EMPTY, steps)
    ensures var reqs := After(max, EMPTY, steps).reqs;
            && (id in reqs <==> StartOf(steps, id).Some?)
            && (id in reqs ==> Told(max, StartOf(steps, id).value, AnswersTo(steps, id), reqs[id]))
            && (id !in reqs ==> AnswersTo(steps, id) == [])
  {
    if steps != [] {
      var n := |steps| - 1;
      RunsInit(max, EMPTY, steps);
      OutcomeTells(max, steps[..n], id);
      var c, s := After(max, EMPTY, steps[..n]), steps[n];
      if id in c.reqs {
        StepTold(max, c, s, id, StartOf(steps[..n], id).value, AnswersTo(steps[..n], id));
      } else if s.Start? && s.id == id {
        StartTold(max, s.anonymous);
      }
      hide Told;
    }
  }
}
