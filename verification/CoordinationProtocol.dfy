/** Any number of `handle_update` calls, on any number of sessions, sharing locks and a handled
    registry (pyroflow/dispatcher.py). Settlement is one-shot, and a call's own clean-up races the
    early settlement that `mark_handled` schedules. */
module CoordinationProtocol {
  import opened Wrappers

  type Scope = nat
  type UpdateId = nat

  /** How far `handle_update` has got; `Settling` is the point between reading `_early` and
      entering `_settle`, where no event-loop step of this session can come between. */
  datatype Main =
    | Acquiring | GaveUp
    | Held | Identified | Running
    | Finishing(handled: bool) | Settling(handled: bool)
    | Registering | Releasing | Awaiting
    | Over

  /** The settlement `mark_handled` schedules. */
  datatype Early = NotClaimed | Scheduled | EarlyRegistering | EarlyReleasing | EarlyOver

  datatype Proc = Proc(
    scope: Scope,
    id: UpdateId,
    main: Main,
    early: Early,
    released: bool,                 // `_released`
    updateId: Option<UpdateId>,     // `update_id`
    ran: bool,                      // the handlers were reached
    outcome: bool,                  // what the handlers' end counted as
    claimed: bool,                  // an early claim was taken outside `Settling`
    registrations: nat,
    releases: nat)

  datatype State = State(
    locks: map<Scope, nat>,
    handled: set<UpdateId>,
    procs: map<nat, Proc>)

  datatype Step =
    | Begin(p: nat, scope: Scope, id: UpdateId)
    | Acquire(p: nat)
    | Timeout(p: nat)
    | Identify(p: nat)
    | Fail(p: nat)
    | Check(p: nat)
    | Finish(p: nat, handled: bool)
    | Settle(p: nat)
    | MainStart(p: nat)
    | MainRegister(p: nat)
    | MainRelease(p: nat)
    | Join(p: nat)
    | Claim(p: nat)
    | EarlyStart(p: nat)
    | EarlyRegister(p: nat)
    | EarlyRelease(p: nat)

  predicate Init(s: State) {
    s.locks == map[] && s.handled == {} && s.procs == map[]
  }

  predicate At(s: State, p: nat, main: Main) {
    p in s.procs && s.procs[p].main == main
  }

  predicate Enabled(s: State, step: Step) {
    match step
    case Begin(p, _, _) => p !in s.procs
    case Acquire(p) => At(s, p, Acquiring) && s.procs[p].scope !in s.locks
    case Timeout(p) => At(s, p, Acquiring)
    case Identify(p) => At(s, p, Held)
    case Fail(p) => At(s, p, Held) || At(s, p, Identified)
    case Check(p) => At(s, p, Identified)
    case Finish(p, _) => At(s, p, Running)
    case Settle(p) => p in s.procs && s.procs[p].main.Finishing?
    case MainStart(p) => p in s.procs && s.procs[p].main.Settling?
    case MainRegister(p) => At(s, p, Registering)
    case MainRelease(p) => At(s, p, Releasing)
    case Join(p) => At(s, p, Awaiting) && s.procs[p].early == EarlyOver
    case Claim(p) => p in s.procs && s.procs[p].main !in {Acquiring, GaveUp}
    case EarlyStart(p) => p in s.procs && s.procs[p].early == Scheduled && !s.procs[p].main.Settling?
    case EarlyRegister(p) => p in s.procs && s.procs[p].early == EarlyRegistering
    case EarlyRelease(p) => p in s.procs && s.procs[p].early == EarlyReleasing
  }

  /** `mark_handled` answers whether it took the settlement. */
  predicate Takes(q: Proc) {
    q.early == NotClaimed && !q.released
  }

  /** What the step does to the call itself. */
  function Advance(s: State, step: Step): Proc
    requires Enabled(s, step) && !step.Begin?
  {
    var q := s.procs[step.p];
    match step
    case Acquire(_) => q.(main := Held)
    case Timeout(_) => q.(main := GaveUp)
    case Identify(_) => q.(main := Identified, updateId := Some(q.id))
    case Fail(_) => q.(main := Finishing(false))
    case Check(_) => if q.id in s.handled then q.(main := Finishing(false)) else q.(main := Running, ran := true)
    case Finish(_, handled) => q.(main := Finishing(handled), outcome := handled)
    case Settle(_) => q.(main := if q.early != NotClaimed then Awaiting else Settling(q.main.handled))
    case MainStart(_) =>
      if q.released then q.(main := Over)
      else q.(released := true, main := if q.main.handled && q.updateId.Some? then Registering else Releasing)
    case MainRegister(_) => q.(main := Releasing, registrations := q.registrations + 1)
    case MainRelease(_) => q.(main := Over, releases := q.releases + 1)
    case Join(_) => q.(main := Over)
    case Claim(_) =>
      if Takes(q) then q.(early := Scheduled, claimed := q.claimed || !q.main.Settling?) else q
    case EarlyStart(_) =>
      if q.released then q.(early := EarlyOver)
      else q.(released := true, early := if q.updateId.Some? then EarlyRegistering else EarlyReleasing)
    case EarlyRegister(_) => q.(early := EarlyReleasing, registrations := q.registrations + 1)
    case EarlyRelease(_) => q.(early := EarlyOver, releases := q.releases + 1)
  }

  /** Releasing frees the scope for whoever comes next, without asking who holds it. */
  function Apply(s: State, step: Step): State
    requires Enabled(s, step)
  {
    if step.Begin? then
      s.(procs := s.procs[step.p :=
           Proc(step.scope, step.id, Acquiring, NotClaimed, false, None, false, false, false, 0, 0)])
    else
      var q := s.procs[step.p];
      State(if step.Acquire? then s.locks[q.scope := step.p]
            else if step.MainRelease? || step.EarlyRelease? then s.locks - {q.scope} else s.locks,
            if (step.MainRegister? || step.EarlyRegister?) && q.updateId.Some?
            then s.handled + {q.updateId.value} else s.handled,
            s.procs[step.p := Advance(s, step)])
  }

  ghost predicate Run(states: seq<State>, steps: seq<Step>) {
    && |states| == |steps| + 1
    && Init(states[0])
    && forall n :: 0 <= n < |steps| ==> Enabled(states[n], steps[n]) && states[n + 1] == Apply(states[n], steps[n])
  }

  // ---------------------------------------------------------------- one-shot settlement

  /** The lock was taken and has not been given back. */
  predicate Locked(q: Proc) {
    q.main !in {Acquiring, GaveUp} && q.releases == 0
  }

  /** Exactly one of the two settlements is under way, or the lock is back. */
  predicate InProgress(q: Proc) {
    q.main in {Registering, Releasing} || q.early in {EarlyRegistering, EarlyReleasing}
  }

  predicate ProcInv(q: Proc) {
    && q.releases <= 1 && q.registrations <= 1
    && (q.released <==> InProgress(q) || q.releases == 1)
    && (InProgress(q) ==> q.releases == 0)
    && (q.main in {Registering, Releasing} ==> q.early in {NotClaimed, Scheduled, EarlyOver})
    && (q.early in {EarlyRegistering, EarlyReleasing} ==> q.main !in {Registering, Releasing})
    && (q.early == EarlyOver ==> q.released)
    && (q.main == Registering || q.early == EarlyRegistering ==> q.registrations == 0 && q.updateId == Some(q.id))
    && (!q.released ==> q.registrations == 0)
    && (q.updateId.Some? ==> q.updateId.value == q.id)
    && (q.main in {Acquiring, GaveUp} ==> q.early == NotClaimed && !q.released)
    && (q.main == Awaiting ==> q.early != NotClaimed)
    && (q.main == Awaiting && q.early == EarlyOver ==> q.releases == 1)
    && (q.main.Settling? ==> q.early in {NotClaimed, Scheduled})
    && (q.early in {NotClaimed, Scheduled} && q.released ==> q.main in {Registering, Releasing, Over})
    && (q.main.Finishing? && q.early == EarlyOver ==> q.releases == 1)
    && (q.main in {Held, Identified, Running} && q.early == EarlyOver ==> q.releases == 1)
    && (q.main == Over ==> q.releases == 1)
    && (q.registrations == 1 ==> q.updateId.Some?)
  }

  /** Locks and calls agree on who holds what. */
  ghost predicate LockInv(s: State) {
    && (forall p :: p in s.procs && Locked(s.procs[p]) ==> Lookup(s.locks, s.procs[p].scope) == Some(p))
    && (forall c :: c in s.locks ==>
          s.locks[c] in s.procs && s.procs[s.locks[c]].scope == c && Locked(s.procs[s.locks[c]]))
  }

  ghost predicate Inv(s: State) {
    LockInv(s) && forall p :: p in s.procs ==> ProcInv(s.procs[p])
  }

  lemma AdvanceKeeps(s: State, step: Step)
    requires Enabled(s, step) && !step.Begin? && ProcInv(s.procs[step.p])
    ensures ProcInv(Advance(s, step))
  {
  }

  lemma AdvanceEffects(s: State, step: Step)
    requires Enabled(s, step) && !step.Begin? && ProcInv(s.procs[step.p])
    ensures var q, r := s.procs[step.p], Advance(s, step);
            && r.scope == q.scope && r.id == q.id
            && (step.Acquire? ==> !Locked(q) && Locked(r))
            && (step.MainRelease? || step.EarlyRelease? ==> Locked(q) && !Locked(r))
            && (!step.Acquire? && !step.MainRelease? && !step.EarlyRelease? ==> Locked(r) == Locked(q))
  {
  }

  /** Replacing one call, with its scope's lock taken, given back, or left alone. */
  lemma LockTaken(s: State, n: State, p: nat, r: Proc)
    requires LockInv(s) && p in s.procs && r.scope == s.procs[p].scope && !Locked(s.procs[p]) && Locked(r)
    requires r.scope !in s.locks && n.locks == s.locks[r.scope := p] && n.procs == s.procs[p := r]
    ensures LockInv(n)
  {
    hide Locked;
  }

  lemma LockGivenBack(s: State, n: State, p: nat, r: Proc)
    requires LockInv(s) && p in s.procs && r.scope == s.procs[p].scope && Locked(s.procs[p]) && !Locked(r)
    requires n.locks == s.locks - {r.scope} && n.procs == s.procs[p := r]
    ensures LockInv(n)
  {
    hide Locked;
  }

  lemma LockLeftAlone(s: State, n: State, p: nat, r: Proc)
    requires LockInv(s) && p in s.procs && r.scope == s.procs[p].scope && Locked(s.procs[p]) == Locked(r)
    requires n.locks == s.locks && n.procs == s.procs[p := r]
    ensures LockInv(n)
  {
    hide Locked;
  }

  lemma LocksKeep(s: State, step: Step)
    requires Inv(s) && Enabled(s, step) && !step.Begin?
    ensures LockInv(Apply(s, step))
  {
    assert ProcInv(s.procs[step.p]);
    AdvanceEffects(s, step);
    hide Advance, ProcInv, Locked, LockInv;
    var n, r := Apply(s, step), Advance(s, step);
    if step.Acquire? {
      LockTaken(s, n, step.p, r);
    } else if step.MainRelease? || step.EarlyRelease? {
      LockGivenBack(s, n, step.p, r);
    } else {
      LockLeftAlone(s, n, step.p, r);
    }
  }

  lemma StepKeeps(s: State, step: Step)
    requires Inv(s) && Enabled(s, step)
    ensures Inv(Apply(s, step))
  {
    if !step.Begin? {
      LocksKeep(s, step);
      assert ProcInv(s.procs[step.p]);
      AdvanceKeeps(s, step);
      hide Advance, ProcInv, LockInv;
    }
  }

  lemma {:induction false} RunKeeps(states: seq<State>, steps: seq<Step>, n: nat)
    requires Run(states, steps) && n < |states|
    ensures Inv(states[n])
  {
    if n > 0 {
      RunKeeps(states, steps, n - 1);
      StepKeeps(states[n - 1], steps[n - 1]);
      assert states[n - 1 + 1] == Apply(states[n - 1], steps[n - 1]);
    }
  }

  /** Whatever claims arrive and whenever: by the time a call that took its lock ends it has given the
      lock back exactly once, and it registered its update at most once. */
  lemma SettledOnce(states: seq<State>, steps: seq<Step>, n: nat, p: nat)
    requires Run(states, steps) && n < |states| && At(states[n], p, Over)
    ensures states[n].procs[p].releases == 1 && states[n].procs[p].registrations <= 1
  {
    RunKeeps(states, steps, n);
    assert ProcInv(states[n].procs[p]);
  }

  /** Every release gives back the call's own lock, never a later holder's; every registration comes
      before the release. */
  lemma ReleaseAndRegisterOwn(states: seq<State>, steps: seq<Step>, n: nat)
    requires Run(states, steps) && n < |steps|
    ensures var s, step := states[n], steps[n];
            && (step.MainRelease? || step.EarlyRelease? ==>
                  Lookup(s.locks, s.procs[step.p].scope) == Some(step.p))
            && (step.MainRegister? || step.EarlyRegister? ==>
                  && Lookup(s.locks, s.procs[step.p].scope) == Some(step.p)
                  && s.procs[step.p].registrations == 0 && s.procs[step.p].releases == 0
                  && states[n + 1].handled == s.handled + {s.procs[step.p].id})
  {
    RunKeeps(states, steps, n);
    if !steps[n].Begin? {
      assert ProcInv(states[n].procs[steps[n].p]);
    }
  }
}
