/** The settlement object and the coordinated part of `handle_update` against the protocol: with nothing else
    going on meanwhile, each takes the call through the protocol's own steps to its end. */
module SettlementRefinement {
  import opened Wrappers
  import C = CoordinationProtocol
  import opened ListenerSteps
  import opened UpdateListeners
  import opened UpdateCoordinators
  import opened HandlerGroups
  import opened ClaimDiscipline
  import opened Dispatchers

  function EarlyOf(early: EarlySettlement): C.Early {
    match early
    case NotClaimed => C.NotClaimed
    case Scheduled => C.Scheduled
    case Performed => C.EarlyOver
  }

  /** The object of call `p` as the protocol state shows it, the lock and the registry included. */
  ghost predicate Shows(release: CoordinatedRelease, s: C.State, p: nat)
    reads release, release.lock, release.coordinator
  {
    && p in s.procs
    && var q := s.procs[p];
       && release.released == q.released && EarlyOf(release.early) == q.early
       && release.updateId.Some? == q.updateId.Some?
       && release.lock.releases == release.before + q.releases
       && release.lock.locked == (Lookup(s.locks, q.scope) == Some(p))
       && (release.updateId.Some? ==>
             (release.coordinator.IsRecorded(release.updateId.value) <==> q.id in s.handled))
  }

  /** From `s` to `n` call `p` settled and ended, and nothing else happened. */
  predicate SettledAs(s: C.State, n: C.State, p: nat, handled: bool)
    requires p in s.procs
  {
    var q := s.procs[p];
    && C.At(n, p, C.Over)
    && var r := n.procs[p];
       && r.released && r.releases == 1 && r.id == q.id && r.scope == q.scope && r.updateId == q.updateId
       && r.ran == q.ran && r.outcome == q.outcome
       && r.early == (if q.early == C.NotClaimed then C.NotClaimed else C.EarlyOver)
       && n.locks == (if q.released then s.locks else s.locks - {q.scope})
       && n.handled == (if !q.released && q.updateId.Some? && (handled || q.early != C.NotClaimed)
                        then s.handled + {q.id} else s.handled)
  }

  lemma StartsSettling(s: C.State, p: nat, handled: bool) returns (states: seq<C.State>)
    requires C.At(s, p, C.Finishing(handled)) && s.procs[p].early == C.NotClaimed && !s.procs[p].released
    ensures Path(states, [C.Settle(p), C.MainStart(p)]) && states[0] == s
    ensures var q := s.procs[p];
            states[2] == s.(procs := s.procs[p := q.(released := true,
              main := if handled && q.updateId.Some? then C.Registering else C.Releasing)])
  {
    states := TwoSteps(s, C.Settle(p), C.MainStart(p));
  }

  lemma Registers(s: C.State, p: nat) returns (states: seq<C.State>)
    requires C.At(s, p, C.Registering) && s.procs[p].updateId == Some(s.procs[p].id) && s.procs[p].releases == 0
    ensures Path(states, [C.MainRegister(p), C.MainRelease(p)]) && states[0] == s && p in states[2].procs
    ensures var q := s.procs[p];
            && states[2].procs[p] == q.(main := C.Over, registrations := q.registrations + 1, releases := 1)
            && states[2].locks == s.locks - {q.scope} && states[2].handled == s.handled + {q.id}
  {
    states := TwoSteps(s, C.MainRegister(p), C.MainRelease(p));
  }

  lemma SettlesUnclaimed(s: C.State, p: nat, handled: bool) returns (states: seq<C.State>, steps: seq<C.Step>)
    requires C.At(s, p, C.Finishing(handled)) && C.ProcInv(s.procs[p]) && s.procs[p].early == C.NotClaimed
    ensures Path(states, steps) && states[0] == s && SettledAs(s, states[|steps|], p, handled)
  {
    var first := StartsSettling(s, p, handled);
    steps := [C.Settle(p), C.MainStart(p)];
    if first[2].procs[p].main == C.Registering {
      var second := Registers(first[2], p);
      hide C.Apply, C.Enabled;
      Joined(first, steps, second, [C.MainRegister(p), C.MainRelease(p)]);
      states, steps := first + second[1..], steps + [C.MainRegister(p), C.MainRelease(p)];
    } else {
      states := Extends(first, steps, C.MainRelease(p));
      steps := steps + [C.MainRelease(p)];
    }
  }

  lemma PerformsEarly(s: C.State, p: nat, handled: bool) returns (states: seq<C.State>, steps: seq<C.Step>)
    requires C.At(s, p, C.Finishing(handled)) && C.ProcInv(s.procs[p]) && s.procs[p].early == C.Scheduled
    ensures Path(states, steps) && states[0] == s
    ensures var q, n := s.procs[p], states[|steps|];
            && n.procs == s.procs[p := q.(released := true, early := C.EarlyOver, releases := 1,
                                         registrations := if q.updateId.Some? then 1 else 0)]
            && n.locks == s.locks - {q.scope}
            && n.handled == if q.updateId.Some? then s.handled + {q.id} else s.handled
  {
    if s.procs[p].updateId.Some? {
      states := ThreeSteps(s, C.EarlyStart(p), C.EarlyRegister(p), C.EarlyRelease(p));
      steps := [C.EarlyStart(p), C.EarlyRegister(p), C.EarlyRelease(p)];
    } else {
      states := TwoSteps(s, C.EarlyStart(p), C.EarlyRelease(p));
      steps := [C.EarlyStart(p), C.EarlyRelease(p)];
    }
  }

  lemma JoinsEarly(s: C.State, p: nat, handled: bool) returns (states: seq<C.State>)
    requires C.At(s, p, C.Finishing(handled)) && s.procs[p].early == C.EarlyOver
    ensures Path(states, [C.Settle(p), C.Join(p)]) && states[0] == s
    ensures states[2] == s.(procs := s.procs[p := s.procs[p].(main := C.Over)])
  {
    states := TwoSteps(s, C.Settle(p), C.Join(p));
  }

  /** What undisturbed settling does in the protocol. */
  lemma SettlesAlone(s: C.State, p: nat, handled: bool) returns (states: seq<C.State>, steps: seq<C.Step>)
    requires C.At(s, p, C.Finishing(handled)) && C.ProcInv(s.procs[p])
    requires s.procs[p].early in {C.NotClaimed, C.Scheduled, C.EarlyOver}
    ensures Path(states, steps) && states[0] == s && SettledAs(s, states[|steps|], p, handled)
  {
    if s.procs[p].early == C.NotClaimed {
      states, steps := SettlesUnclaimed(s, p, handled);
    } else if s.procs[p].early == C.EarlyOver {
      states := JoinsEarly(s, p, handled);
      steps := [C.Settle(p), C.Join(p)];
    } else {
      var first, began := PerformsEarly(s, p, handled);
      var second := JoinsEarly(first[|began|], p, handled);
      hide C.Apply, C.Enabled;
      Joined(first, began, second, [C.Settle(p), C.Join(p)]);
      states, steps := first + second[1..], began + [C.Settle(p), C.Join(p)];
    }
  }

  /** `settle` is those steps: the object still shows the call when both have come to their end. */
  method SettleInStep(release: CoordinatedRelease, handled: bool, ghost s: C.State, ghost p: nat)
    returns (ghost states: seq<C.State>, ghost steps: seq<C.Step>)
    requires release.Open() && C.Inv(s) && Shows(release, s, p) && C.At(s, p, C.Finishing(handled))
    modifies release`early, release`released, release.coordinator`handled, release.lock
    ensures Path(states, steps) && states[0] == s && C.At(states[|steps|], p, C.Over)
    ensures Shows(release, states[|steps|], p)
  {
    assert C.ProcInv(s.procs[p]);
    states, steps := SettlesAlone(s, p, handled);
    release.Settle(handled);
  }

  // ---------------------------------------------------------------- a whole coordinated update

  /** The call holds its lock, and nothing has happened to it yet. */
  predicate Untouched(s: C.State, p: nat) {
    && C.At(s, p, C.Held) && s.procs[p].early == C.NotClaimed && !s.procs[p].released
    && s.procs[p].updateId.None? && !s.procs[p].ran
  }

  /** From `s` to `n` call `p` came to where the dispatcher settles, and nothing else happened. */
  predicate FinishedAs(s: C.State, n: C.State, p: nat, identified: bool, claims: bool, handled: bool)
    requires p in s.procs
  {
    var q := s.procs[p];
    var processed := identified && q.id !in s.handled;
    && C.At(n, p, C.Finishing(processed && handled)) && n.locks == s.locks && n.handled == s.handled
    && n.procs[p] == q.(main := C.Finishing(processed && handled), ran := processed,
                        outcome := if processed then handled else q.outcome,
                        early := if processed && claims then C.Scheduled else C.NotClaimed,
                        claimed := n.procs[p].claimed, updateId := if identified then Some(q.id) else None)
  }

  lemma FailsOrSkips(s: C.State, p: nat, identified: bool, claims: bool, handled: bool)
    returns (states: seq<C.State>, steps: seq<C.Step>)
    requires Untouched(s, p) && (identified ==> s.procs[p].id in s.handled)
    ensures Path(states, steps) && states[0] == s && FinishedAs(s, states[|steps|], p, identified, claims, handled)
  {
    if identified {
      states := TwoSteps(s, C.Identify(p), C.Check(p));
      steps := [C.Identify(p), C.Check(p)];
    } else {
      states := [s, C.Apply(s, C.Fail(p))];
      steps := [C.Fail(p)];
    }
  }

  lemma StartsRunning(s: C.State, p: nat) returns (states: seq<C.State>)
    requires Untouched(s, p) && s.procs[p].id !in s.handled
    ensures Path(states, [C.Identify(p), C.Check(p)]) && states[0] == s
    ensures states[2] == s.(procs := s.procs[p :=
              s.procs[p].(main := C.Running, updateId := Some(s.procs[p].id), ran := true)])
  {
    states := TwoSteps(s, C.Identify(p), C.Check(p));
  }

  lemma EndsRunning(s: C.State, p: nat, claims: bool, handled: bool) returns (states: seq<C.State>, steps: seq<C.Step>)
    requires C.At(s, p, C.Running) && s.procs[p].early == C.NotClaimed && !s.procs[p].released
    ensures Path(states, steps) && states[0] == s
    ensures states[|steps|] == s.(procs := s.procs[p :=
              s.procs[p].(main := C.Finishing(handled), outcome := handled,
                          early := if claims then C.Scheduled else C.NotClaimed,
                          claimed := claims || s.procs[p].claimed)])
  {
    if claims {
      states := TwoSteps(s, C.Claim(p), C.Finish(p, handled));
      steps := [C.Claim(p), C.Finish(p, handled)];
    } else {
      states := [s, C.Apply(s, C.Finish(p, handled))];
      steps := [C.Finish(p, handled)];
    }
  }

  lemma ReachesFinish(s: C.State, p: nat, identified: bool, claims: bool, handled: bool)
    returns (states: seq<C.State>, steps: seq<C.Step>)
    requires Untouched(s, p)
    ensures Path(states, steps) && states[0] == s && FinishedAs(s, states[|steps|], p, identified, claims, handled)
  {
    if identified && s.procs[p].id !in s.handled {
      var first := StartsRunning(s, p);
      var more, rest := EndsRunning(first[2], p, claims, handled);
      hide C.Apply, C.Enabled;
      Joined(first, [C.Identify(p), C.Check(p)], more, rest);
      states, steps := first + more[1..], [C.Identify(p), C.Check(p)] + rest;
    } else {
      states, steps := FailsOrSkips(s, p, identified, claims, handled);
    }
  }

  lemma {:induction false} PathKeepsInv(states: seq<C.State>, steps: seq<C.Step>, n: nat)
    requires Path(states, steps) && C.Inv(states[0]) && n < |states|
    ensures C.Inv(states[n])
  {
    hide C.Inv, C.Enabled, C.Apply;
    if n > 0 {
      PathKeepsInv(states, steps, n - 1);
      C.StepKeeps(states[n - 1], steps[n - 1]);
      assert states[n - 1 + 1] == C.Apply(states[n - 1], steps[n - 1]);
    }
  }

  /** What the protocol makes of a call that is left alone from the moment it holds its lock. */
  lemma CoordinatesAlone(s: C.State, p: nat, identified: bool, claims: bool, handled: bool)
    returns (states: seq<C.State>, steps: seq<C.Step>)
    requires C.Inv(s) && Untouched(s, p)
    ensures Path(states, steps) && states[0] == s
    ensures var q, n := s.procs[p], states[|steps|];
            && C.At(n, p, C.Over) && n.procs[p].id == q.id && n.procs[p].scope == q.scope
            && n.procs[p].releases == 1 && n.locks == s.locks - {q.scope}
            && (n.procs[p].ran <==> identified && q.id !in s.handled)
            && (n.procs[p].ran ==> n.procs[p].outcome == handled)
            && n.handled == if identified && q.id !in s.handled && (handled || claims)
                            then s.handled + {q.id} else s.handled
  {
    var first, began := ReachesFinish(s, p, identified, claims, handled);
    PathKeepsInv(first, began, |began|);
    var n := first[|began|];
    assert C.ProcInv(n.procs[p]);
    hide C.Apply, C.Enabled, C.Inv, C.ProcInv;
    var second, rest := SettlesAlone(n, p, n.procs[p].main.handled);
    Joined(first, began, second, rest);
    states, steps := first + second[1..], began + rest;
  }

  /** `handle_update` under its lock is such a run: it gives the update to the handlers exactly if the protocol's
      call does, with the outcome the protocol is told of, and ends with the lock and the registry as the
      protocol has them at the call's end. */
  method CoordinateInSteps(dispatcher: Dispatcher, coordinator: MemoryUpdateCoordinator, lock: TimedLock,
                           identity: Option<UpdateKey>, listener: UpdateListener?, incoming: Incoming,
                           recording: bool, prompt: bool, ghost s: C.State, ghost p: nat)
    returns (end: UpdateEnd, ran: seq<Handler>, ghost states: seq<C.State>, ghost steps: seq<C.Step>)
    requires lock.locked && (listener != null ==> listener.Valid())
    requires C.Inv(s) && Untouched(s, p)
    requires identity.Some? ==> (coordinator.IsRecorded(identity.value) <==> s.procs[p].id in s.handled)
    modifies coordinator, lock, ListenScope(listener)
    ensures Path(states, steps) && states[0] == s && C.At(states[|steps|], p, C.Over)
    ensures end.Processed? <==> states[|steps|].procs[p].ran
    ensures if end.Processed? then states[|steps|].procs[p].outcome == CountsAsHandled(end.end) else ran == []
    ensures var n := states[|steps|];
            && lock.locked == (Lookup(n.locks, n.procs[p].scope) == Some(p))
            && lock.releases == old(lock.releases) + n.procs[p].releases
            && (identity.Some? ==> (coordinator.IsRecorded(identity.value) <==> n.procs[p].id in n.handled))
  {
    var records;
    end, records, ran := dispatcher.Coordinate(coordinator, lock, identity, listener, incoming, recording, prompt);
    states, steps := CoordinatesAlone(s, p, identity.Some?, AnyClaims(ran), end.Processed? && CountsAsHandled(end.end));
  }
}
