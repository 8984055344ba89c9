// The Android client's 401 handling: one retry per request behind one shared refresh call,
// and a logout when either fails.
module AuthInterceptor {

  import opened Options

  datatype Secret = Secret(text: string)
  datatype ReqId = ReqId(n: nat)

  datatype Vault = Vault(token: Option<Secret>, refresh: Option<Secret>)

  const CLEARED: Vault := Vault(None, None)

  // How a send settles.
  datatype Reply = Fine | Unauthorized | Failed

  // How the refresh call settles.
  datatype Grant = Granted(token: Secret, refresh: Option<Secret>) | Denied

  // The shared promise: none, one still pending, or one already settled with `false` that
  // nothing will ever take out again.
  datatype Slot = Empty | Pending | Spent

  datatype Result = Answered | Rethrown | LoggedOut

  // `sends` counts the sends so far.
  datatype Req =
    | First(sends: nat)                // the first send is out
    | Joined(sends: nat)               // awaits the pending refresh
    | Woken(ok: bool, sends: nat)      // its refresh promise has settled
    | Second(sends: nat)               // the retry is out
    | Done(result: Result, sends: nat)

  // `calls`: refresh calls not yet answered. `seen`: the vault as each logout callback finds it.
  datatype State = State(vault: Vault, slot: Slot, calls: nat, reqs: map<ReqId, Req>, seen: seq<Vault>)

  // `throws`: the refresh function, if this step calls it, throws instead of returning a promise.
  datatype Step =
    | Start(id: ReqId)
    | Settle(id: ReqId, reply: Reply, throws: bool)
    | RefreshSettles(grant: Grant)
    | Resume(id: ReqId)
    | Login(vault: Vault)
    | Clear

  predicate HasRefresh(v: Vault) {
    v.refresh.Some? && v.refresh.value.text != ""
  }

  predicate Enabled(a: State, s: Step) {
    match s
    case Start(id) => id !in a.reqs
    case Settle(id, _, _) => id in a.reqs && (a.reqs[id].First? || a.reqs[id].Second?)
    case RefreshSettles(_) => a.slot.Pending?
    case Resume(id) => id in a.reqs && a.reqs[id].Woken?
    case Login(_) => true
    case Clear => true
  }

  // ---- what each step does ----

  function Phase(a: State, id: ReqId, r: Req): State {
    a.(reqs := a.reqs[id := r])
  }

  function LogOut(a: State, id: ReqId, sends: nat): State {
    Phase(a, id, Done(LoggedOut, sends)).(vault := CLEARED, seen := a.seen + [CLEARED])
  }

  // Join the promise in the slot, or start a call; without a refresh token the answer is `false`.
  function Refused(a: State, id: ReqId, sends: nat, throws: bool): State {
    match a.slot
    case Pending => Phase(a, id, Joined(sends))
    case Spent => Phase(a, id, Woken(false, sends))
    case Empty =>
      if !HasRefresh(a.vault) then Phase(a, id, Woken(false, sends))
      else if throws then Phase(a, id, Woken(false, sends)).(slot := Spent)
      else Phase(a, id, Joined(sends)).(slot := Pending, calls := a.calls + 1)
  }

  function Settled(a: State, id: ReqId, r: Req, reply: Reply, throws: bool): State {
    match reply
    case Fine => Phase(a, id, Done(Answered, r.sends))
    case Failed => Phase(a, id, Done(Rethrown, r.sends))
    case Unauthorized => if r.First? then Refused(a, id, r.sends, throws) else LogOut(a, id, r.sends)
  }

  function Notified(r: Req, ok: bool): Req {
    if r.Joined? then Woken(ok, r.sends) else r
  }

  function Wake(reqs: map<ReqId, Req>, ok: bool): map<ReqId, Req> {
    map id | id in reqs :: Notified(reqs[id], ok)
  }

  // The call in flight has been answered.
  function Refreshed(a: State, grant: Grant): State {
    a.(vault := if grant.Granted? then Vault(Some(grant.token), grant.refresh) else a.vault,
       slot := Empty, calls := if a.calls > 0 then a.calls - 1 else 0, reqs := Wake(a.reqs, grant.Granted?))
  }

  function Next(a: State, s: Step): State
    requires Enabled(a, s)
  {
    match s
    case Start(id) => Phase(a, id, First(1))
    case Settle(id, reply, throws) => Settled(a, id, a.reqs[id], reply, throws)
    case RefreshSettles(grant) => Refreshed(a, grant)
    case Resume(id) =>
      if a.reqs[id].ok then Phase(a, id, Second(a.reqs[id].sends + 1)) else LogOut(a, id, a.reqs[id].sends)
    case Login(v) => a.(vault := v)
    case Clear => a.(vault := CLEARED)
  }

  predicate ReqOk(slot: Slot, r: Req) {
    && (r.Joined? ==> slot.Pending?)
    && (r.First? || r.Joined? || r.Woken? ==> r.sends == 1)
    && (r.Second? ==> r.sends == 2)
    && (r.Done? ==> 1 <= r.sends <= 2)
  }

  // The slot holds a pending promise exactly while its one call is out, somebody awaits it,
  // and every logout callback has found the vault empty.
  ghost predicate Inv(a: State) {
    && a.calls == (if a.slot.Pending? then 1 else 0)
    && (forall id <- a.reqs :: ReqOk(a.slot, a.reqs[id]))
    && (a.slot.Pending? ==> exists id <- a.reqs :: a.reqs[id].Joined?)
    && (forall v <- a.seen :: v == CLEARED)
  }

  // ---- the object ----

  class AuthInterceptor {
    var vault: Vault
    var inflightRefresh: Slot
    var calls: nat
    var reqs: map<ReqId, Req>
    var seen: seq<Vault>

    ghost function Now(): State
      reads this
    {
      State(vault, inflightRefresh, calls, reqs, seen)
    }

    constructor (store: Vault)
      ensures Now() == State(store, Empty, 0, map[], []) && Inv(Now())
    {
      vault, inflightRefresh, calls, reqs, seen := store, Empty, 0, map[], [];
    }

    method Logout()
      modifies this
      ensures Now() == old(Now()).(vault := CLEARED, seen := old(seen) + [CLEARED])
    {
      vault := CLEARED;
      seen := seen + [vault];
    }

    // The refresh promise the caller is to await: still pending, or settled with `false`.
    method RefreshOnce(throws: bool) returns (pending: bool)
      modifies this
      ensures vault == old(vault) && reqs == old(reqs) && seen == old(seen)
      ensures pending <==>
                old(inflightRefresh).Pending? || (old(inflightRefresh).Empty? && HasRefresh(vault) && !throws)
      ensures inflightRefresh == (if pending then Pending
                                  else if old(inflightRefresh).Empty? && HasRefresh(vault) then Spent
                                  else old(inflightRefresh))
      ensures calls == old(calls) + if pending && old(inflightRefresh).Empty? then 1 else 0
    {
      if !inflightRefresh.Empty? {
        return inflightRefresh.Pending?;
      }
      if !HasRefresh(vault) {
        return false;
      }
      if throws {
        // The promise body has already run to its end and cleared the slot; only now is the
        // settled promise stored in it.
        inflightRefresh := Empty;
        inflightRefresh := Spent;
        return false;
      }
      calls := calls + 1;
      inflightRefresh := Pending;
      return true;
    }

    method OnSettle(id: ReqId, reply: Reply, throws: bool)
      requires Enabled(Now(), Settle(id, reply, throws))
      modifies this
      ensures Now() == Next(old(Now()), Settle(id, reply, throws))
      ensures old(Inv(Now())) ==> Inv(Now())
    {
      ghost var before := Now();
      if Inv(before) {
        StepKeeps(before, Settle(id, reply, throws));
      }
      var first, sends := reqs[id].First?, reqs[id].sends;
      if reply.Fine? {
        reqs := reqs[id := Done(Answered, sends)];
      } else if reply.Failed? {
        reqs := reqs[id := Done(Rethrown, sends)];
      } else if first {
        var pending := RefreshOnce(throws);
        reqs := reqs[id := if pending then Joined(sends) else Woken(false, sends)];
      } else {
        Logout();
        reqs := reqs[id := Done(LoggedOut, sends)];
      }
    }

    method OnResume(id: ReqId)
      requires Enabled(Now(), Resume(id))
      modifies this
      ensures Now() == Next(old(Now()), Resume(id))
      ensures old(Inv(Now())) ==> Inv(Now())
    {
      ghost var before := Now();
      if Inv(before) {
        StepKeeps(before, Resume(id));
      }
      var ok, sends := reqs[id].ok, reqs[id].sends;
      if ok {
        reqs := reqs[id := Second(sends + 1)];
      } else {
        Logout();
        reqs := reqs[id := Done(LoggedOut, sends)];
      }
    }

    method OnRefreshSettles(grant: Grant)
      requires Enabled(Now(), RefreshSettles(grant))
      modifies this
      ensures Now() == Next(old(Now()), RefreshSettles(grant))
      ensures old(Inv(Now())) ==> Inv(Now())
    {
      ghost var before := Now();
      if Inv(before) {
        StepKeeps(before, RefreshSettles(grant));
      }
      if grant.Granted? {
        vault := Vault(Some(grant.token), grant.refresh);
      }
      inflightRefresh := Empty;
      calls := if calls > 0 then calls - 1 else 0;
      reqs := Wake(reqs, grant.Granted?);
    }
  }

  // ---- runs ----

  ghost predicate Runs(a: State, steps: seq<Step>)
    decreases |steps|
  {
    steps == [] || (Enabled(a, steps[0]) && Runs(Next(a, steps[0]), steps[1..]))
  }

  ghost function After(a: State, steps: seq<Step>): State
    requires Runs(a, steps)
    decreases |steps|
  {
    if steps == [] then a else After(Next(a, steps[0]), steps[1..])
  }

  lemma SettleKeeps(a: State, s: Step)
    requires Inv(a) && Enabled(a, s) && s.Settle?
    ensures Inv(Next(a, s))
  {
    var b := Next(a, s);
    if b.slot.Pending? {
      if a.slot.Pending? {
        var id :| id in a.reqs && a.reqs[id].Joined?;
        assert id in b.reqs && b.reqs[id].Joined?;
      } else {
        assert s.id in b.reqs && b.reqs[s.id].Joined?;
      }
    }
  }

  lemma StepKeeps(a: State, s: Step)
    requires Inv(a) && Enabled(a, s)
    ensures Inv(Next(a, s))
  {
    if s.Settle? {
      SettleKeeps(a, s);
    } else if a.slot.Pending? && !s.RefreshSettles? {
      var id :| id in a.reqs && a.reqs[id].Joined?;
      assert id in Next(a, s).reqs && Next(a, s).reqs[id].Joined?;
    }
  }

  lemma {:induction false} RunKeeps(a: State, steps: seq<Step>)
    requires Inv(a) && Runs(a, steps)
    ensures Inv(After(a, steps))
    decreases |steps|
  {
    if steps != [] {
      StepKeeps(a, steps[0]);
      RunKeeps(Next(a, steps[0]), steps[1..]);
    }
  }

  lemma {:induction false} RunsExtend(a: State, steps: seq<Step>, s: Step)
    requires Runs(a, steps) && Enabled(After(a, steps), s)
    ensures Runs(a, steps + [s]) && After(a, steps + [s]) == Next(After(a, steps), s)
    decreases |steps|
  {
    if steps == [] {
      assert ([] + [s])[1..] == [];
    } else {
      RunsExtend(Next(a, steps[0]), steps[1..], s);
      assert (steps + [s])[1..] == steps[1..] + [s];
    }
  }

  function Fresh(store: Vault): State {
    State(store, Empty, 0, map[], [])
  }

  // In every interleaving: at most one refresh call is out, somebody awaits it, no request is
  // sent more than twice, and every logout callback finds the session gone.
  lemma SharedRefresh(store: Vault, steps: seq<Step>, id: ReqId)
    requires Runs(Fresh(store), steps)
    ensures var a := After(Fresh(store), steps);
            && a.calls <= 1
            && (a.calls == 1 <==> exists j <- a.reqs :: a.reqs[j].Joined?)
            && (id in a.reqs ==> 1 <= a.reqs[id].sends <= 2)
            && (forall v <- a.seen :: v == CLEARED)
  {
    RunKeeps(Fresh(store), steps);
    var a := After(Fresh(store), steps);
    assert forall j <- a.reqs :: ReqOk(a.slot, a.reqs[j]);
  }

  // ---- every request ends ----

  function Remaining(r: Req): nat {
    match r
    case First(_) => 4
    case Joined(_) => 3
    case Woken(_, _) => 2
    case Second(_) => 1
    case Done(_, _) => 0
  }

  predicate Moves(s: Step, r: Req, id: ReqId) {
    match s
    case Settle(i, _, _) => i == id
    case Resume(i) => i == id
    case RefreshSettles(_) => r.Joined?
    case _ => false
  }

  // A step about a request brings it nearer its end, any other leaves it alone, and an
  // unfinished request always has such a step.
  lemma StepProgress(a: State, s: Step, id: ReqId)
    requires Inv(a) && Enabled(a, s) && id in a.reqs
    ensures id in Next(a, s).reqs
    ensures var before, after := a.reqs[id], Next(a, s).reqs[id];
            if Moves(s, before, id) then Remaining(after) < Remaining(before) else after == before
    ensures !a.reqs[id].Done? ==> exists t :: Enabled(a, t) && Moves(t, a.reqs[id], id)
  {
    var r := a.reqs[id];
    assert ReqOk(a.slot, r);
    match r
    case First(_) => assert Enabled(a, Settle(id, Fine, false)) && Moves(Settle(id, Fine, false), r, id);
    case Second(_) => assert Enabled(a, Settle(id, Fine, false)) && Moves(Settle(id, Fine, false), r, id);
    case Joined(_) => assert Enabled(a, RefreshSettles(Denied)) && Moves(RefreshSettles(Denied), r, id);
    case Woken(_, _) => assert Enabled(a, Resume(id)) && Moves(Resume(id), r, id);
    case Done(_, _) =>
  }

  // ---- the promise that is never taken out ----

  predicate Poisons(a: State, s: Step) {
    && s.Settle? && s.throws && s.reply.Unauthorized?
    && s.id in a.reqs && a.reqs[s.id].First?
    && a.slot.Empty? && HasRefresh(a.vault)
  }

  ghost predicate EverPoisoned(a: State, steps: seq<Step>)
    requires Runs(a, steps)
    decreases |steps|
  {
    steps != [] && (Poisons(a, steps[0]) || EverPoisoned(Next(a, steps[0]), steps[1..]))
  }

  // The slot ends up spent exactly when some refresh threw before returning its promise, and
  // then it stays so.
  lemma {:induction false} SpentIff(a: State, steps: seq<Step>)
    requires Runs(a, steps)
    ensures After(a, steps).slot.Spent? <==> a.slot.Spent? || EverPoisoned(a, steps)
    decreases |steps|
  {
    if steps != [] {
      SpentIff(Next(a, steps[0]), steps[1..]);
    }
  }

  predicate NeverRetries(r: Req) {
    r.sends == 1 && (r.First? || (r.Woken? && !r.ok) || r.Done?)
  }

  lemma {:induction false} SpentRefusesAll(a: State, steps: seq<Step>, id: ReqId)
    requires Inv(a) && Runs(a, steps) && a.slot.Spent? && id in a.reqs && NeverRetries(a.reqs[id])
    ensures After(a, steps).calls == 0
    ensures id in After(a, steps).reqs && NeverRetries(After(a, steps).reqs[id])
    decreases |steps|
  {
    if steps != [] {
      StepKeeps(a, steps[0]);
      SpentRefusesAll(Next(a, steps[0]), steps[1..], id);
    }
  }

  lemma CanStillRetry(a: State, id: ReqId, v: Vault, token: Secret) returns (steps: seq<Step>)
    requires Inv(a) && id in a.reqs && a.reqs[id].First? && !a.slot.Spent? && HasRefresh(v)
    ensures Runs(a, steps) && id in After(a, steps).reqs && After(a, steps).reqs[id].Second?
  {
    var s0, s1, s2, s3 := Login(v), Settle(id, Unauthorized, false), RefreshSettles(Granted(token, None)), Resume(id);
    RunsExtend(a, [], s0);
    assert [] + [s0] == [s0];
    RunsExtend(a, [s0], s1);
    RunsExtend(a, [s0] + [s1], s2);
    RunsExtend(a, [s0] + [s1] + [s2], s3);
    steps := [s0] + [s1] + [s2] + [s3];
  }

  // A request still on its first send can yet be retried, under some future, exactly when the
  // slot is not spent: after that no sign-in helps.
  lemma RetryPossibleIff(a: State, id: ReqId)
    requires Inv(a) && id in a.reqs && a.reqs[id].First?
    ensures (exists steps :: Runs(a, steps) && id in After(a, steps).reqs && After(a, steps).reqs[id].Second?)
            <==> !a.slot.Spent?
  {
    if a.slot.Spent? {
      forall steps | Runs(a, steps) ensures id in After(a, steps).reqs && !After(a, steps).reqs[id].Second? {
        SpentRefusesAll(a, steps, id);
      }
    } else {
      var steps := CanStillRetry(a, id, Vault(None, Some(Secret("r"))), Secret("t"));
    }
  }

  // A refresh that throws before returning its promise does that: the user signs in again with
  // a good refresh token, and the next 401 logs them out without a refresh call.
  lemma ThrowingRefreshStrands(store: Vault, again: Vault, x: ReqId, y: ReqId)
    requires HasRefresh(store) && HasRefresh(again) && x != y
    ensures var s0, s1, s2, s3 := Start(x), Settle(x, Unauthorized, true), Resume(x), Login(again);
            var s4, s5, s6 := Start(y), Settle(y, Unauthorized, false), Resume(y);
            var steps := [s0] + [s1] + [s2] + [s3] + [s4] + [s5] + [s6];
            && Runs(Fresh(store), steps)
            && y in After(Fresh(store), steps).reqs && After(Fresh(store), steps).reqs[y] == Done(LoggedOut, 1)
            && After(Fresh(store), steps).vault == CLEARED && After(Fresh(store), steps).slot.Spent?
  {
    var a := Fresh(store);
    var s0, s1, s2, s3 := Start(x), Settle(x, Unauthorized, true), Resume(x), Login(again);
    var s4, s5, s6 := Start(y), Settle(y, Unauthorized, false), Resume(y);
    RunsExtend(a, [], s0);
    assert [] + [s0] == [s0];
    RunsExtend(a, [s0], s1);
    RunsExtend(a, [s0] + [s1], s2);
    RunsExtend(a, [s0] + [s1] + [s2], s3);
    RunsExtend(a, [s0] + [s1] + [s2] + [s3], s4);
    RunsExtend(a, [s0] + [s1] + [s2] + [s3] + [s4], s5);
    RunsExtend(a, [s0] + [s1] + [s2] + [s3] + [s4] + [s5], s6);
  }

  // ---- a cleared session ----

  ghost predicate NoLogin(steps: seq<Step>) {
    forall s <- steps :: !s.Login?
  }

  lemma {:induction false} StaysCleared(a: State, steps: seq<Step>)
    requires Inv(a) && Runs(a, steps) && a.vault == CLEARED && a.calls == 0 && NoLogin(steps)
    ensures After(a, steps).vault == CLEARED
    decreases |steps|
  {
    if steps != [] {
      assert steps[0] in steps && forall s <- steps[1..] :: s in steps;
      StepKeeps(a, steps[0]);
      StaysCleared(Next(a, steps[0]), steps[1..]);
    }
  }

  // A logout lasts until the next sign-in exactly when no refresh call is out: a late grant
  // would write its tokens back.
  lemma LogoutLastsIff(a: State)
    requires Inv(a) && a.vault == CLEARED
    ensures (forall steps :: Runs(a, steps) && NoLogin(steps) ==> After(a, steps).vault == CLEARED) <==> a.calls == 0
  {
    if a.calls == 0 {
      forall steps | Runs(a, steps) && NoLogin(steps) ensures After(a, steps).vault == CLEARED {
        StaysCleared(a, steps);
      }
    } else {
      var s := RefreshSettles(Granted(Secret("t"), None));
      RunsExtend(a, [], s);
      assert [] + [s] == [s];
      assert NoLogin([s]) && After(a, [s]).vault.token == Some(Secret("t"));
    }
  }

  // It happens: the user signs out while a refresh is out, and its grant signs them in again.
  lemma LateGrantSignsIn(store: Vault, x: ReqId, token: Secret)
    requires HasRefresh(store)
    ensures var s0, s1, s2, s3 := Start(x), Settle(x, Unauthorized, false), Clear, RefreshSettles(Granted(token, None));
            var out, late := [s0] + [s1] + [s2], [s0] + [s1] + [s2] + [s3];
            && Runs(Fresh(store), out) && After(Fresh(store), out).vault == CLEARED
            && Runs(Fresh(store), late) && After(Fresh(store), late).vault.token == Some(token)
  {
    var a := Fresh(store);
    var s0, s1, s2, s3 := Start(x), Settle(x, Unauthorized, false), Clear, RefreshSettles(Granted(token, None));
    RunsExtend(a, [], s0);
    assert [] + [s0] == [s0];
    RunsExtend(a, [s0], s1);
    RunsExtend(a, [s0] + [s1], s2);
    RunsExtend(a, [s0] + [s1] + [s2], s3);
  }
}
