/**
 Deadline-capped chain RPC: the in-flight permits, the caller that stops waiting at the deadline,
 the worker that may outlive it, and the holder that hangs up the worker's sockets. Every step is
 one lock section, one socket shutdown or one event, so any interleaving of threads is a run.
 */
module RpcDeadline {
  import opened Prelude

  type Id = nat
  type Sock = nat

  const MAX_INFLIGHT := 4

  // ---------------------------------------------------------------- the socket holder

  datatype Holder = Holder(socks: seq<Sock>, expired: bool)

  /** The lock sections of `_SockHolder`; each returns what its caller must hang up afterwards. */
  class SockHolder {
    var socks: seq<Sock>
    var expired: bool

    function View(): Holder
      reads this
    {
      Holder(socks, expired)
    }

    constructor ()
      ensures View() == Holder([], false)
    {
      socks, expired := [], false;
    }

    method Register(s: Sock) returns (hangUp: seq<Sock>)
      modifies this
      ensures View() == Registered(old(View()), s)
      ensures hangUp == if old(expired) then [s] else []
    {
      socks := socks + [s];
      hangUp := if expired then [s] else [];
    }

    method Expire() returns (hangUp: seq<Sock>)
      modifies this
      ensures View() == Expired(old(View()))
      ensures hangUp == old(socks)
    {
      expired := true;
      hangUp := socks;
    }
  }

  function Registered(h: Holder, s: Sock): Holder { h.(socks := h.socks + [s]) }

  function Expired(h: Holder): Holder { h.(expired := true) }

  // ---------------------------------------------------------------- attempts

  datatype Result = Response | Error

  datatype Caller =
    | HasPermit | StartFailed | Waiting | Answered(r: Result) | GaveUp | HangingUp(left: set<Sock>) | TimedOut

  datatype Worker = NoThread | Working | HasOutcome | PermitReleased | Finished

  /** `registering` are register calls past their lock section that saw the holder expired;
      `releases` counts how often the attempt has given its permit back. */
  datatype Attempt = Attempt(
    caller: Caller, worker: Worker, outcome: Option<Result>, done: bool,
    holder: Holder, registering: set<Sock>, hungUp: set<Sock>, releases: nat)

  datatype Sys = Sys(permits: int, attempts: map<Id, Attempt>)

  const STARTED := Sys(MAX_INFLIGHT, map[])

  datatype Action =
    | Acquire(id: Id)
    | StartThread(id: Id)
    | FailToStart(id: Id)
    | Register(id: Id, sock: Sock)
    | FinishRegister(id: Id, sock: Sock)
    | SetOutcome(id: Id, r: Result)
    | ReleasePermit(id: Id)
    | SetDone(id: Id)
    | Answer(id: Id)
    | GiveUp(id: Id)
    | Expire(id: Id)
    | HangUp(id: Id, sock: Sock)
    | RaiseTimeout(id: Id)

  predicate Enabled(s: Sys, a: Action)
  {
    if a.Acquire? then a.id !in s.attempts && s.permits > 0
    else
      a.id in s.attempts &&
      var t := s.attempts[a.id];
      match a
      case StartThread(_) => t.caller.HasPermit?
      case FailToStart(_) => t.caller.HasPermit?
      case Register(_, _) => t.worker.Working?
      case FinishRegister(_, sock) => sock in t.registering
      case SetOutcome(_, _) => t.worker.Working? && t.registering == {}
      case ReleasePermit(_) => t.worker.HasOutcome?
      case SetDone(_) => t.worker.PermitReleased?
      case Answer(_) => t.caller.Waiting? && t.done && t.outcome.Some?
      case GiveUp(_) => t.caller.Waiting? && !t.done
      case Expire(_) => t.caller.GaveUp?
      case HangUp(_, sock) => t.caller.HangingUp? && sock in t.caller.left
      case RaiseTimeout(_) => t.caller.HangingUp? && t.caller.left == {}
  }

  function Sockets(h: Holder): set<Sock> { set x | x in h.socks }

  function NextAttempt(t: Attempt, a: Action): Attempt
  {
    match a
    case Acquire(_) => t
    case StartThread(_) => t.(caller := Waiting, worker := Working)
    case FailToStart(_) => t.(caller := StartFailed, releases := t.releases + 1)
    case Register(_, sock) =>
      t.(holder := Registered(t.holder, sock),
         registering := if t.holder.expired then t.registering + {sock} else t.registering)
    case FinishRegister(_, sock) => t.(registering := t.registering - {sock}, hungUp := t.hungUp + {sock})
    case SetOutcome(_, r) => t.(worker := HasOutcome, outcome := Some(r))
    case ReleasePermit(_) => t.(worker := PermitReleased, releases := t.releases + 1)
    case SetDone(_) => t.(worker := Finished, done := true)
    case Answer(_) => t.(caller := if t.outcome.Some? then Answered(t.outcome.value) else t.caller)
    case GiveUp(_) => t.(caller := GaveUp)
    case Expire(_) => t.(caller := HangingUp(Sockets(t.holder)), holder := Expired(t.holder))
    case HangUp(_, sock) =>
      t.(caller := if t.caller.HangingUp? then HangingUp(t.caller.left - {sock}) else t.caller,
         hungUp := t.hungUp + {sock})
    case RaiseTimeout(_) => t.(caller := TimedOut)
  }

  const NEW_ATTEMPT := Attempt(HasPermit, NoThread, None, false, Holder([], false), {}, {}, 0)

  function Next(s: Sys, a: Action): Sys
    requires Enabled(s, a)
  {
    if a.Acquire? then Sys(s.permits - 1, s.attempts[a.id := NEW_ATTEMPT])
    else
      var given := if a.FailToStart? || a.ReleasePermit? then 1 else 0;
      Sys(s.permits + given, s.attempts[a.id := NextAttempt(s.attempts[a.id], a)])
  }

  // ---------------------------------------------------------------- invariant

  /** An attempt that still holds its permit. */
  predicate Unfinished(t: Attempt) { t.caller.HasPermit? || t.worker.Working? || t.worker.HasOutcome? }

  function UnfinishedIds(s: Sys): set<Id> { set id | id in s.attempts && Unfinished(s.attempts[id]) }

  function Left(t: Attempt): set<Sock> { if t.caller.HangingUp? then t.caller.left else {} }

  predicate AttemptOk(t: Attempt) {
    && t.releases == (if Unfinished(t) then 0 else 1)
    && (t.caller.HasPermit? || t.caller.StartFailed? <==> t.worker.NoThread?)
    && (t.worker.HasOutcome? || t.worker.PermitReleased? || t.worker.Finished? <==> t.outcome.Some?)
    && (t.done <==> t.worker.Finished?)
    && (t.caller.Answered? ==> t.outcome == Some(t.caller.r) && t.done)
    && (t.holder.expired <==> t.caller.HangingUp? || t.caller.TimedOut?)
    && t.hungUp + t.registering + Left(t) <= Sockets(t.holder)
    && (if t.holder.expired then Sockets(t.holder) <= t.hungUp + t.registering + Left(t)
        else t.hungUp == {} && t.registering == {})
  }

  ghost predicate Inv(s: Sys) {
    && (forall id :: id in s.attempts ==> AttemptOk(s.attempts[id]))
    && s.permits >= 0 && s.permits + |UnfinishedIds(s)| == MAX_INFLIGHT
  }

  lemma StepKeepsAttempt(t: Attempt, a: Action, s: Sys)
    requires !a.Acquire? && Enabled(s, a) && t == s.attempts[a.id] && AttemptOk(t)
    ensures AttemptOk(NextAttempt(t, a))
    ensures Unfinished(NextAttempt(t, a)) <==> Unfinished(t) && !a.FailToStart? && !a.ReleasePermit?
  {
    var u := NextAttempt(t, a);
    if a.Register? { assert Sockets(u.holder) == Sockets(t.holder) + {a.sock}; }
  }

  lemma UnfinishedAfterAcquire(s: Sys, a: Action)
    requires Enabled(s, a) && a.Acquire?
    ensures a.id !in UnfinishedIds(s)
    ensures UnfinishedIds(Next(s, a)) == UnfinishedIds(s) + {a.id}
  {
  }

  lemma UnfinishedAfter(s: Sys, a: Action)
    requires Enabled(s, a) && !a.Acquire? && AttemptOk(s.attempts[a.id])
    ensures UnfinishedIds(Next(s, a)) ==
            if a.FailToStart? || a.ReleasePermit? then UnfinishedIds(s) - {a.id} else UnfinishedIds(s)
    ensures a.FailToStart? || a.ReleasePermit? ==> a.id in UnfinishedIds(s)
  {
  }

  lemma NewAttemptIsOk()
    ensures AttemptOk(NEW_ATTEMPT)
  {
  }

  lemma StepKeepsInv(s: Sys, a: Action)
    requires Enabled(s, a) && Inv(s)
    ensures Inv(Next(s, a))
  {
    hide NextAttempt, AttemptOk, UnfinishedIds, Unfinished;
    if a.Acquire? {
      UnfinishedAfterAcquire(s, a);
      NewAttemptIsOk();
    } else {
      UnfinishedAfter(s, a);
      StepKeepsAttempt(s.attempts[a.id], a, s);
    }
  }

  // ---------------------------------------------------------------- every interleaving

  ghost predicate IsRun(states: seq<Sys>, acts: seq<Action>) {
    && |states| == |acts| + 1 && states[0] == STARTED
    && forall i :: 0 <= i < |acts| ==> Enabled(states[i], acts[i]) && states[i + 1] == Next(states[i], acts[i])
  }

  lemma {:induction false} RunsKeepInv(states: seq<Sys>, acts: seq<Action>, n: nat)
    requires IsRun(states, acts) && n <= |acts|
    ensures Inv(states[n])
  {
    if n == 0 {
      assert UnfinishedIds(STARTED) == {};
    } else {
      RunsKeepInv(states, acts, n - 1);
      StepKeepsInv(states[n - 1], acts[n - 1]);
    }
  }

  /** Free permits and unfinished attempts always add up to four, and an attempt has given its
      permit back exactly once when it is finished and not at all before. */
  lemma PermitsAreConserved(states: seq<Sys>, acts: seq<Action>, n: nat)
    requires IsRun(states, acts) && n <= |acts|
    ensures 0 <= states[n].permits && states[n].permits + |UnfinishedIds(states[n])| == 4
    ensures forall id :: id in states[n].attempts ==>
              states[n].attempts[id].releases == if id in UnfinishedIds(states[n]) then 0 else 1
  {
    RunsKeepInv(states, acts, n);
  }

  /** A new attempt is admitted exactly when fewer than four are unfinished. */
  lemma AdmittedIffRoom(states: seq<Sys>, acts: seq<Action>, n: nat, id: Id)
    requires IsRun(states, acts) && n <= |acts| && id !in states[n].attempts
    ensures Enabled(states[n], Acquire(id)) <==> |UnfinishedIds(states[n])| < 4
  {
    RunsKeepInv(states, acts, n);
  }

  /** Once the caller has raised its timeout and no register call is still running, every socket the
      attempt ever registered has been hung up, including one registered after the deadline. */
  lemma ExpiryHangsUpEverySocket(states: seq<Sys>, acts: seq<Action>, n: nat, id: Id)
    requires IsRun(states, acts) && n <= |acts| && id in states[n].attempts
    requires states[n].attempts[id].caller.TimedOut? && states[n].attempts[id].registering == {}
    ensures states[n].attempts[id].hungUp == Sockets(states[n].attempts[id].holder)
  {
    RunsKeepInv(states, acts, n);
    assert AttemptOk(states[n].attempts[id]);
  }

  /** An outcome is one its own worker set. */
  lemma {:induction false} OutcomeWasSet(states: seq<Sys>, acts: seq<Action>, n: nat, id: Id)
    requires IsRun(states, acts) && n <= |acts| && id in states[n].attempts
    requires states[n].attempts[id].outcome.Some?
    ensures exists k :: 0 <= k < n && acts[k] == SetOutcome(id, states[n].attempts[id].outcome.value)
  {
    if n > 0 {
      var s, a := states[n - 1], acts[n - 1];
      assert Enabled(s, a) && states[n] == Next(s, a);
      if a != SetOutcome(id, states[n].attempts[id].outcome.value) {
        OutcomeWasSet(states, acts, n - 1, id);
      }
    }
  }

  /** An attempt that answered its caller was never hung up, and answered what its worker set. */
  lemma AnsweredIsUntouched(states: seq<Sys>, acts: seq<Action>, n: nat, id: Id)
    requires IsRun(states, acts) && n <= |acts| && id in states[n].attempts
    requires states[n].attempts[id].caller.Answered?
    ensures states[n].attempts[id].hungUp == {}
    ensures states[n].attempts[id].outcome == Some(states[n].attempts[id].caller.r)
    ensures exists k :: 0 <= k < n && acts[k] == SetOutcome(id, states[n].attempts[id].caller.r)
    ensures states[n].attempts[id].releases == 1
  {
    RunsKeepInv(states, acts, n);
    assert AttemptOk(states[n].attempts[id]);
    OutcomeWasSet(states, acts, n, id);
  }

  /** A waiting caller can always move: by its answer once the worker is done, else by giving up. */
  lemma CallerIsNeverStuck(states: seq<Sys>, acts: seq<Action>, n: nat, id: Id)
    requires IsRun(states, acts) && n <= |acts| && id in states[n].attempts
    requires states[n].attempts[id].caller.Waiting?
    ensures Enabled(states[n], Answer(id)) <==> states[n].attempts[id].done
    ensures Enabled(states[n], GiveUp(id)) <==> !states[n].attempts[id].done
  {
    RunsKeepInv(states, acts, n);
    assert AttemptOk(states[n].attempts[id]);
  }
}
