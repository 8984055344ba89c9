// What a request of the Android client is answered, in every interleaving: its result read off
// the replies it got and the grants before them.
module AuthRuns {

  import opened Options
  import opened AuthInterceptor

  function AnswersTo(steps: seq<Step>, id: ReqId): seq<Reply> {
    if steps == [] then []
    else
      var s := steps[|steps| - 1];
      AnswersTo(steps[..|steps| - 1], id) + if s.Settle? && s.id == id then [s.reply] else []
  }

  ghost predicate SomeGrant(steps: seq<Step>) {
    exists s <- steps :: s.RefreshSettles? && s.grant.Granted?
  }

  // The first reply, if a second send followed, was a 401; the last one is the result.
  predicate Told(answers: seq<Reply>, r: Req) {
    match r
    case First(sends) => answers == [] && sends == 1
    case Joined(sends) => answers == [Unauthorized] && sends == 1
    case Woken(_, sends) => answers == [Unauthorized] && sends == 1
    case Second(sends) => answers == [Unauthorized] && sends == 2
    case Done(result, sends) =>
      && 1 <= |answers| == sends <= 2 && (sends == 2 ==> answers[0] == Unauthorized)
      && (result == Answered <==> answers[sends - 1] == Fine)
      && (result == Rethrown <==> answers[sends - 1] == Reply.Failed)
      && (result == LoggedOut <==> answers[sends - 1] == Unauthorized)
  }

  // A retry, and a waiter told to retry, come after a grant.
  predicate GrantedFirst(r: Req, granted: bool) {
    r.sends == 2 || (r.Woken? && r.ok) ==> granted
  }

  lemma StepTold(a: State, s: Step, id: ReqId, answers: seq<Reply>, granted: bool)
    requires Enabled(a, s) && id in a.reqs && Told(answers, a.reqs[id]) && GrantedFirst(a.reqs[id], granted)
    ensures var b := Next(a, s);
            && id in b.reqs && Told(answers + if s.Settle? && s.id == id then [s.reply] else [], b.reqs[id])
            && GrantedFirst(b.reqs[id], granted || (s.RefreshSettles? && s.grant.Granted?))
  {
    assert answers + [] == answers;
  }

  lemma {:induction false} RunsInit(a: State, steps: seq<Step>)
    requires steps != [] && Runs(a, steps)
    ensures var n := |steps| - 1;
            && Runs(a, steps[..n]) && Enabled(After(a, steps[..n]), steps[n])
            && After(a, steps) == Next(After(a, steps[..n]), steps[n])
    decreases |steps|
  {
    var n := |steps| - 1;
    if n > 0 {
      RunsInit(Next(a, steps[0]), steps[1..]);
      assert steps[1..][..n - 1] == steps[..n][1..] && steps[..n][0] == steps[0];
    }
  }

  lemma GrantPush(steps: seq<Step>)
    requires steps != []
    ensures var n := |steps| - 1;
            SomeGrant(steps) <==> SomeGrant(steps[..n]) || (steps[n].RefreshSettles? && steps[n].grant.Granted?)
  {
    var n := |steps| - 1;
    assert steps == steps[..n] + [steps[n]];
  }

  // In every interleaving: a request is answered, thrown back or logged out exactly when its last
  // reply is a success, another failure or a 401; a second send follows a first reply of 401 and
  // a granted refresh.
  lemma {:induction false} ResultTells(store: Vault, steps: seq<Step>, id: ReqId)
    requires Runs(Fresh(store), steps)
    ensures var reqs := After(Fresh(store), steps).reqs;
            && (id in reqs ==> Told(AnswersTo(steps, id), reqs[id]) && GrantedFirst(reqs[id], SomeGrant(steps)))
            && (id !in reqs ==> AnswersTo(steps, id) == [])
  {
    if steps != [] {
      var n := |steps| - 1;
      RunsInit(Fresh(store), steps);
      ResultTells(store, steps[..n], id);
      var a, s := After(Fresh(store), steps[..n]), steps[n];
      GrantPush(steps);
      if id in a.reqs {
        StepTold(a, s, id, AnswersTo(steps[..n], id), SomeGrant(steps[..n]));
      }
      hide SomeGrant, Settled, Wake;
    }
  }

  // A grant stores both its tokens, a denial none; either way the slot is free again and exactly
  // the requests that waited are told.
  lemma GrantStores(a: State, grant: Grant, id: ReqId)
    requires Enabled(a, RefreshSettles(grant)) && id in a.reqs
    ensures var b := Next(a, RefreshSettles(grant));
            && b.slot == Empty && id in b.reqs
            && (grant.Granted? ==> b.vault == Vault(Some(grant.token), grant.refresh))
            && (grant.Denied? ==> b.vault == a.vault)
            && b.reqs[id] == if a.reqs[id].Joined? then Woken(grant.Granted?, a.reqs[id].sends) else a.reqs[id]
  {
  }

  // The first 401 of a request: it waits on the refresh that is out, or on a new one, which takes a
  // refresh token that is not empty and a free slot; otherwise it is refused at once. The second
  // one logs out: both tokens go, and the callback finds them gone.
  lemma ExpiryTells(a: State, id: ReqId, throws: bool)
    requires Enabled(a, Settle(id, Unauthorized, throws))
    ensures var b := Next(a, Settle(id, Unauthorized, throws));
            var hasToken := exists text :: text != "" && a.vault.refresh == Some(Secret(text));
            var waits := a.slot == Pending || (a.slot == Empty && hasToken && !throws);
            && id in b.reqs
            && (a.reqs[id].First? ==>
                  && b.vault == a.vault && b.seen == a.seen
                  && b.reqs[id] == (if waits then Joined(a.reqs[id].sends) else Woken(false, a.reqs[id].sends))
                  && b.calls == (if waits && a.slot == Empty then a.calls + 1 else a.calls))
            && (a.reqs[id].Second? ==>
                  && b.vault == Vault(None, None) && b.seen == a.seen + [Vault(None, None)]
                  && b.reqs[id] == Done(LoggedOut, a.reqs[id].sends) && b.calls == a.calls && b.slot == a.slot)
  {
    if HasRefresh(a.vault) {
      assert a.vault.refresh == Some(Secret(a.vault.refresh.value.text));
    }
  }
}
