// The iOS client's request loop: bounded retries, one silent refresh per request, and one
// refresh call shared by every request that needs it.
module ApiClient {

  import opened Options

  type Token = nat
  type ReqId = nat

  // What the transport answers: no answer, 2xx, 401, or another error.
  datatype Reply = Offline | Success | Unauthorized(retryable: bool) | Failure(retryable: bool)

  datatype Outcome = Returned | GaveUp | SessionExpired

  // ---- one request on its own ----

  // A 401 the request answers with a refresh; to an anonymous one it is an error like any other.
  predicate IsExpiry(anonymous: bool, r: Reply) {
    r.Unauthorized? && !anonymous
  }

  predicate IsRetryable(anonymous: bool, r: Reply) {
    r.Offline? || ((r.Failure? || (r.Unauthorized? && anonymous)) && r.retryable)
  }

  // How many of the first n answers are such 401s.
  function Expiries(anonymous: bool, transport: nat -> Reply, n: nat): nat {
    if n == 0 then 0 else Expiries(anonymous, transport, n - 1) + if IsExpiry(anonymous, transport(n - 1)) then 1 else 0
  }

  // The answer that ends the request: a success, a 401 that is not the first or whose refresh is
  // refused, an error that is not retryable, or one that is with every retry used up.
  predicate Ends(max: nat, anonymous: bool, transport: nat -> Reply, refreshOk: bool, n: nat) {
    var r, before := transport(n), Expiries(anonymous, transport, n);
    || r == Success
    || (IsExpiry(anonymous, r) && (before > 0 || !refreshOk))
    || (r != Success && !IsExpiry(anonymous, r) && (IsRetryable(anonymous, r) ==> n - before >= max))
  }

  // transport(n) answers the n-th send; the refresh, if asked for, answers refreshOk.
  method Request(maxRetries: nat, anonymous: bool, transport: nat -> Reply, refreshOk: bool)
    returns (outcome: Outcome, sends: nat, refreshes: nat)
    ensures 1 <= sends <= maxRetries + 2 && refreshes <= 1 && (anonymous ==> refreshes == 0 && sends <= maxRetries + 1)
    // it is sent again after every answer that does not end it, and only then
    ensures Ends(maxRetries, anonymous, transport, refreshOk, sends - 1)
    ensures forall n :: 0 <= n < sends - 1 ==> !Ends(maxRetries, anonymous, transport, refreshOk, n)
    ensures outcome == Returned <==> transport(sends - 1) == Success
    ensures outcome == SessionExpired <==>
            !anonymous && transport(sends - 1).Unauthorized?
                && (!refreshOk || exists n :: 0 <= n < sends - 1 && transport(n).Unauthorized?)
    ensures outcome == GaveUp && IsRetryable(anonymous, transport(sends - 1)) ==> sends - refreshes == maxRetries + 1
    ensures refreshes == 1 <==> exists n :: 0 <= n < sends && IsExpiry(anonymous, transport(n))
  {
    var attempt := 0;
    var refreshedOnce := false;
    sends, refreshes := 0, 0;
    while true
      invariant attempt <= maxRetries && sends == attempt + refreshes && refreshes == (if refreshedOnce then 1 else 0)
      invariant refreshedOnce ==> refreshOk && !anonymous
      invariant Expiries(anonymous, transport, sends) == refreshes
      invariant refreshedOnce <==> exists n :: 0 <= n < sends && IsExpiry(anonymous, transport(n))
      invariant forall n :: 0 <= n < sends ==> !Ends(maxRetries, anonymous, transport, refreshOk, n)
      decreases maxRetries - attempt, !refreshedOnce
    {
      var res := transport(sends);
      sends := sends + 1;
      if res.Offline? {
        if attempt < maxRetries {
          attempt := attempt + 1;
          continue;
        }
        return GaveUp, sends, refreshes;
      }
      if res.Success? {
        return Returned, sends, refreshes;
      }
      if res.Unauthorized? && !anonymous {
        assert IsExpiry(anonymous, transport(sends - 1));
        if !refreshedOnce {
          refreshedOnce := true;
          refreshes := 1;
          if refreshOk {
            continue;
          }
        }
        return SessionExpired, sends, refreshes;
      }
      if res.retryable && attempt < maxRetries {
        attempt := attempt + 1;
        continue;
      }
      return GaveUp, sends, refreshes;
    }
  }

  // ---- many requests sharing one token store and one refresh ----

  datatype Req =
    | Sending(attempt: nat, refreshed: bool, anonymous: bool, sends: nat)
    | Sleeping(attempt: nat, refreshed: bool, anonymous: bool, sends: nat)
    | Waiting(attempt: nat, sends: nat)            // on the shared refresh
    | Woken(ok: bool, attempt: nat, sends: nat)    // the refresh has answered
    | Done(outcome: Outcome, sends: nat)

  // `inFlight`: the shared promise is set. `calls`: refresh calls the server has not answered.
  // `expired` records the stored token each time the session-expired callback fires.
  datatype Client = Client(token: Option<Token>, inFlight: bool, calls: nat, reqs: map<ReqId, Req>,
      expired: seq<Option<Token>>)

  const EMPTY: Client := Client(None, false, 0, map[], [])

  datatype Step =
    | Start(id: ReqId, anonymous: bool)
    | Answer(id: ReqId, reply: Reply)
    | Wake(id: ReqId)
    | RefreshAnswers(ok: bool, fresh_: Token)
    | Resume(id: ReqId)
    | Login(token: Token)
    | Logout

  predicate Enabled(c: Client, s: Step) {
    match s
    case Start(id, _) => id !in c.reqs
    case Answer(id, _) => id in c.reqs && c.reqs[id].Sending?
    case Wake(id) => id in c.reqs && c.reqs[id].Sleeping?
    case RefreshAnswers(ok, _) => c.inFlight && (c.calls == 0 ==> !ok)
    case Resume(id) => id in c.reqs && c.reqs[id].Woken?
    case Login(_) => true
    case Logout => true
  }

  function Expire(c: Client, id: ReqId, sends: nat): Client {
    c.(token := None, expired := c.expired + [None], reqs := c.reqs[id := Done(SessionExpired, sends)])
  }

  // Join the refresh in flight or start one; without a stored token no call is made.
  function JoinRefresh(c: Client, id: ReqId, r: Req): Client
    requires r.Sending?
  {
    var d := c.(reqs := c.reqs[id := Waiting(r.attempt, r.sends)]);
    if c.inFlight then d else d.(inFlight := true, calls := c.calls + if c.token.Some? then 1 else 0)
  }

  function Retry(max: nat, c: Client, id: ReqId, r: Req): Client
    requires r.Sending?
  {
    c.(reqs := c.reqs[id := if r.attempt < max then Sleeping(r.attempt + 1, r.refreshed, r.anonymous, r.sends)
        else Done(GaveUp, r.sends)])
  }

  function Answered(max: nat, c: Client, id: ReqId, r: Req, reply: Reply): Client
    requires r.Sending?
  {
    if reply.Offline? then Retry(max, c, id, r)
    else if reply.Success? then c.(reqs := c.reqs[id := Done(Returned, r.sends)])
    else if reply.Unauthorized? && !r.anonymous then
      if !r.refreshed then JoinRefresh(c, id, r) else Expire(c, id, r.sends)
    else if reply.retryable then Retry(max, c, id, r)
    else c.(reqs := c.reqs[id := Done(GaveUp, r.sends)])
  }

  function Notify(r: Req, ok: bool): Req {
    if r.Waiting? then Woken(ok, r.attempt, r.sends) else r
  }

  function Next(max: nat, c: Client, s: Step): Client
    requires Enabled(c, s)
  {
    match s
    case Start(id, anonymous) => c.(reqs := c.reqs[id := Sending(0, false, anonymous, 1)])
    case Answer(id, reply) => Answered(max, c, id, c.reqs[id], reply)
    case Wake(id) =>
      var r := c.reqs[id];
      c.(reqs := c.reqs[id := Sending(r.attempt, r.refreshed, r.anonymous, r.sends + 1)])
    case RefreshAnswers(ok, fresh_) =>
      c.(inFlight := false, calls := 0, token := if ok then Some(fresh_) else c.token,
         reqs := map id | id in c.reqs :: Notify(c.reqs[id], ok))
    case Resume(id) =>
      var r := c.reqs[id];
      if r.ok then c.(reqs := c.reqs[id := Sending(r.attempt, true, false, r.sends + 1)]) else Expire(c, id, r.sends)
    case Login(t) => c.(token := Some(t))
    case Logout => c.(token := None)
  }

  // ---- the object ----

  class MobileApiClient {
    const maxRetries: nat
    var token: Option<Token>
    var refreshInFlight: bool
    var calls: nat
    var reqs: map<ReqId, Req>
    var expired: seq<Option<Token>>

    ghost function Now(): Client
      reads this
    {
      Client(token, refreshInFlight, calls, reqs, expired)
    }

    constructor (maxRetries: nat)
      ensures this.maxRetries == maxRetries && Now() == EMPTY
    {
      this.maxRetries := maxRetries;
      token, refreshInFlight, calls, reqs, expired := None, false, 0, map[], [];
    }

    // Clear the store first: the callback finds it empty.
    method ExpireSession(id: ReqId, sends: nat)
      modifies this
      ensures Now() == Expire(old(Now()), id, sends)
    {
      token := None;
      expired := expired + [token];
      reqs := reqs[id := Done(SessionExpired, sends)];
    }

    // Wait on the refresh in flight, started here when there is none.
    method EnsureRefreshed()
      modifies this
      ensures refreshInFlight && token == old(token) && reqs == old(reqs) && expired == old(expired)
      ensures calls == old(calls) + if !old(refreshInFlight) && token.Some? then 1 else 0
    {
      if refreshInFlight {
        return;
      }
      refreshInFlight := true;
      if token.Some? {
        calls := calls + 1;
      }
    }

    method OnAnswer(id: ReqId, reply: Reply)
      requires Enabled(Now(), Answer(id, reply))
      modifies this
      ensures Now() == Next(maxRetries, old(Now()), Answer(id, reply))
    {
      var r := reqs[id];
      if reply.Success? {
        reqs := reqs[id := Done(Returned, r.sends)];
        return;
      }
      if reply.Unauthorized? && !r.anonymous {
        if r.refreshed {
          ExpireSession(id, r.sends);
        } else {
          EnsureRefreshed();
          reqs := reqs[id := Waiting(r.attempt, r.sends)];
        }
        return;
      }
      if (reply.Offline? || reply.retryable) && r.attempt < maxRetries {
        reqs := reqs[id := Sleeping(r.attempt + 1, r.refreshed, r.anonymous, r.sends)];
      } else {
        reqs := reqs[id := Done(GaveUp, r.sends)];
      }
    }

    // The refresh settles: a granted token is stored, the slot emptied, every waiter woken.
    method OnRefreshAnswers(ok: bool, fresh_: Token)
      requires Enabled(Now(), RefreshAnswers(ok, fresh_))
      modifies this
      ensures Now() == Next(maxRetries, old(Now()), RefreshAnswers(ok, fresh_))
    {
      if ok {
        token := Some(fresh_);
      }
      refreshInFlight := false;
      calls := 0;
      reqs := map id | id in reqs :: Notify(reqs[id], ok);
    }

    method OnResume(id: ReqId)
      requires Enabled(Now(), Resume(id))
      modifies this
      ensures Now() == Next(maxRetries, old(Now()), Resume(id))
    {
      var r := reqs[id];
      if r.ok {
        reqs := reqs[id := Sending(r.attempt, true, false, r.sends + 1)];
      } else {
        ExpireSession(id, r.sends);
      }
    }
  }

  // ---- runs ----

  ghost predicate Runs(max: nat, c: Client, steps: seq<Step>)
    decreases |steps|
  {
    steps == [] || (Enabled(c, steps[0]) && Runs(max, Next(max, c, steps[0]), steps[1..]))
  }

  ghost function After(max: nat, c: Client, steps: seq<Step>): Client
    requires Runs(max, c, steps)
    decreases |steps|
  {
    if steps == [] then c else After(max, Next(max, c, steps[0]), steps[1..])
  }

  // ---- invariant ----

  predicate ReqOk(max: nat, c: Client, r: Req) {
    match r
    case Sending(a, refreshed, anonymous, sends) =>
      a <= max && sends == 1 + a + (if refreshed then 1 else 0) && (anonymous ==> !refreshed)
    case Sleeping(a, refreshed, anonymous, sends) =>
      a <= max && sends == a + (if refreshed then 1 else 0) && (anonymous ==> !refreshed)
    case Waiting(a, sends) => a <= max && sends == 1 + a && c.inFlight
    case Woken(_, a, sends) => a <= max && sends == 1 + a
    case Done(_, sends) => sends <= max + 2
  }

  ghost predicate Inv(max: nat, c: Client) {
    && c.calls <= 1 && (c.calls == 1 ==> c.inFlight)
    && (forall id <- c.reqs :: ReqOk(max, c, c.reqs[id]))
    && (forall i :: 0 <= i < |c.expired| ==> c.expired[i].None?)
  }

  lemma AnswerKeeps(max: nat, c: Client, id: ReqId, reply: Reply)
    requires Inv(max, c) && id in c.reqs && c.reqs[id].Sending?
    ensures Inv(max, Answered(max, c, id, c.reqs[id], reply))
  {
    assert ReqOk(max, c, c.reqs[id]);
  }

  lemma RefreshKeeps(max: nat, c: Client, ok: bool, fresh_: Token)
    requires Inv(max, c) && Enabled(c, RefreshAnswers(ok, fresh_))
    ensures Inv(max, Next(max, c, RefreshAnswers(ok, fresh_)))
  {
    assert forall id <- c.reqs :: ReqOk(max, c, c.reqs[id]);
  }

  lemma StepKeeps(max: nat, c: Client, s: Step)
    requires Inv(max, c) && Enabled(c, s)
    ensures Inv(max, Next(max, c, s))
  {
    hide Answered, Notify;
    match s
    case Answer(id, reply) => AnswerKeeps(max, c, id, reply);
    case RefreshAnswers(ok, fresh_) => RefreshKeeps(max, c, ok, fresh_);
    case Wake(id) => assert ReqOk(max, c, c.reqs[id]);
    case Resume(id) => assert ReqOk(max, c, c.reqs[id]);
    case _ =>
  }

  lemma {:induction false} RunKeeps(max: nat, c: Client, steps: seq<Step>)
    requires Inv(max, c) && Runs(max, c, steps)
    ensures Inv(max, After(max, c, steps))
    decreases |steps|
  {
    if steps != [] {
      StepKeeps(max, c, steps[0]);
      RunKeeps(max, Next(max, c, steps[0]), steps[1..]);
    }
  }

  // In every interleaving at most one refresh call is outstanding, no request is sent more
  // than maxRetries + 2 times, and the expired callback only ever sees a cleared store.
  lemma SingleFlight(max: nat, steps: seq<Step>, id: ReqId)
    requires Runs(max, EMPTY, steps)
    ensures var c := After(max, EMPTY, steps);
            && c.calls <= 1
            && (id in c.reqs ==> c.reqs[id].sends <= max + 2)
            && (forall i :: 0 <= i < |c.expired| ==> c.expired[i] == None)
  {
    RunKeeps(max, EMPTY, steps);
    assert id in After(max, EMPTY, steps).reqs
        ==> ReqOk(max, After(max, EMPTY, steps), After(max, EMPTY, steps).reqs[id]);
  }

  // ---- every request ends ----

  // Remaining retries and the unused refresh, in steps.
  function Remaining(max: nat, r: Req): int {
    match r
    case Sending(a, refreshed, _, _) => 3 * (max - a + (if refreshed then 0 else 1)) + 2
    case Sleeping(a, refreshed, _, _) => 3 * (max - a + (if refreshed then 0 else 1)) + 3
    case Waiting(a, _) => 3 * (max - a) + 4
    case Woken(_, a, _) => 3 * (max - a) + 3
    case Done(_, _) => 0
  }

  predicate Moves(s: Step, r: Req, id: ReqId) {
    match s
    case Answer(i, _) => i == id
    case Wake(i) => i == id
    case Resume(i) => i == id
    case RefreshAnswers(_, _) => r.Waiting?
    case _ => false
  }

  // A step about a request brings it closer to its end; any other step leaves it alone.
  lemma StepProgress(max: nat, c: Client, s: Step, id: ReqId)
    requires Inv(max, c) && Enabled(c, s) && id in c.reqs
    ensures id in Next(max, c, s).reqs
    ensures var before, after := c.reqs[id], Next(max, c, s).reqs[id];
            if Moves(s, before, id) then 0 <= Remaining(max, after) < Remaining(max, before) else after == before
  {
    assert ReqOk(max, c, c.reqs[id]);
    if s.Answer? {
      AnswerProgress(max, c, s.id, s.reply, id);
    }
    hide Answered;
  }

  lemma AnswerProgress(max: nat, c: Client, at: ReqId, reply: Reply, id: ReqId)
    requires Inv(max, c) && at in c.reqs && c.reqs[at].Sending? && id in c.reqs
    ensures var d := Answered(max, c, at, c.reqs[at], reply);
            && id in d.reqs && (id != at ==> d.reqs[id] == c.reqs[id])
            && (id == at ==> 0 <= Remaining(max, d.reqs[id]) < Remaining(max, c.reqs[id]))
  {
    assert ReqOk(max, c, c.reqs[at]);
  }

  function MovesOf(max: nat, c: Client, steps: seq<Step>, id: ReqId): nat
    requires Runs(max, c, steps)
    decreases |steps|
  {
    if steps == [] then 0
    else
      (if id in c.reqs && Moves(steps[0], c.reqs[id], id) then 1 else 0)
          + MovesOf(max, Next(max, c, steps[0]), steps[1..], id)
  }

  // No run spends more than this many steps on one request.
  lemma {:induction false} BoundedWork(max: nat, c: Client, steps: seq<Step>, id: ReqId)
    requires Inv(max, c) && Runs(max, c, steps) && id in c.reqs
    ensures MovesOf(max, c, steps, id) <= Remaining(max, c.reqs[id])
    decreases |steps|
  {
    assert ReqOk(max, c, c.reqs[id]);
    if steps != [] {
      StepKeeps(max, c, steps[0]);
      StepProgress(max, c, steps[0], id);
      BoundedWork(max, Next(max, c, steps[0]), steps[1..], id);
    }
  }

  // And none is ever stuck: an unfinished request always has its next step.
  lemma NeverStuck(max: nat, c: Client, id: ReqId)
    requires Inv(max, c) && id in c.reqs && !c.reqs[id].Done?
    ensures exists s :: Enabled(c, s) && Moves(s, c.reqs[id], id)
  {
    assert ReqOk(max, c, c.reqs[id]);
    match c.reqs[id]
    case Sending(_, _, _, _) => assert Enabled(c, Answer(id, Offline)) && Moves(Answer(id, Offline), c.reqs[id], id);
    case Sleeping(_, _, _, _) => assert Enabled(c, Wake(id)) && Moves(Wake(id), c.reqs[id], id);
    case Waiting(_, _) => assert Enabled(c, RefreshAnswers(false, 0))
        && Moves(RefreshAnswers(false, 0), c.reqs[id], id);
    case Woken(_, _, _) => assert Enabled(c, Resume(id)) && Moves(Resume(id), c.reqs[id], id);
  }

  // ---- a cleared session ----

  ghost predicate NoLogin(steps: seq<Step>) {
    forall s <- steps :: !s.Login?
  }

  lemma {:induction false} StaysCleared(max: nat, c: Client, steps: seq<Step>)
    requires c.token.None? && c.calls == 0 && NoLogin(steps) && Runs(max, c, steps)
    ensures After(max, c, steps).token.None?
    decreases |steps|
  {
    if steps != [] {
      assert steps[0] in steps && forall s <- steps[1..] :: s in steps;
      StaysCleared(max, Next(max, c, steps[0]), steps[1..]);
    }
  }

  // Once cleared, the store stays empty until the next login exactly when no refresh call
  // is outstanding: a late answer would write its token back.
  lemma ClearedSticksIff(max: nat, c: Client)
    requires Inv(max, c) && c.token.None?
    ensures (forall steps :: NoLogin(steps) && Runs(max, c, steps) ==> After(max, c, steps).token.None?)
            <==> c.calls == 0
  {
    if c.calls == 0 {
      forall steps | NoLogin(steps) && Runs(max, c, steps) ensures After(max, c, steps).token.None? {
        StaysCleared(max, c, steps);
      }
    } else {
      var s := RefreshAnswers(true, 0);
      var one := [s];
      assert one[1..] == [];
      assert Runs(max, Next(max, c, s), []);
      assert NoLogin(one) && Runs(max, c, one);
      assert After(max, c, one) == After(max, Next(max, c, s), one[1..]);
      assert After(max, c, one).token == Some(0);
    }
  }

  // It happens: a 401 starts a refresh, the user logs out, and the late answer stores its token.
  lemma LateAnswerSignsIn(max: nat, token: Token, late: Token, id: ReqId)
    ensures var steps := [Login(token), Start(id, false), Answer(id, Unauthorized(false)), Logout,
            RefreshAnswers(true, late)];
            && Runs(max, EMPTY, steps[..4]) && After(max, EMPTY, steps[..4]).token == None
            && Runs(max, EMPTY, steps) && After(max, EMPTY, steps).token == Some(late)
  {
    var s0, s1, s2, s3, s4 := Login(token), Start(id, false), Answer(id, Unauthorized(false)), Logout,
        RefreshAnswers(true, late);
    var steps := [s0, s1, s2, s3, s4];
    RunsExtend(max, EMPTY, [], s0);
    assert [] + [s0] == [s0];
    RunsExtend(max, EMPTY, [s0], s1);
    RunsExtend(max, EMPTY, [s0] + [s1], s2);
    RunsExtend(max, EMPTY, [s0] + [s1] + [s2], s3);
    RunsExtend(max, EMPTY, [s0] + [s1] + [s2] + [s3], s4);
    assert steps[..4] == [s0] + [s1] + [s2] + [s3] && steps == [s0] + [s1] + [s2] + [s3] + [s4];
  }

  lemma {:induction false} RunsExtend(max: nat, c: Client, steps: seq<Step>, s: Step)
    requires Runs(max, c, steps) && Enabled(After(max, c, steps), s)
    ensures Runs(max, c, steps + [s]) && After(max, c, steps + [s]) == Next(max, After(max, c, steps), s)
    decreases |steps|
  {
    if steps == [] {
      assert ([] + [s])[1..] == [];
    } else {
      RunsExtend(max, Next(max, c, steps[0]), steps[1..], s);
      assert (steps + [s])[1..] == steps[1..] + [s];
    }
  }
}
