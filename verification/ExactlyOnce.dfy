/** Exactly-once coordination: what `mark_handled` called in time, and equal ids sharing a lock scope,
    buy over every run. */
module ExactlyOnce {
  import opened Wrappers
  import opened CoordinationProtocol

  /** A claim finds the handlers reached; or it comes too late to matter, with the dispatcher already
      settling or with no identity there to register. */
  predicate Timely(q: Proc) {
    q.ran || q.main.Settling? || (q.main.Finishing? && q.updateId.None?)
  }

  /** Claims are taken in time, and equal ids share a scope. */
  ghost predicate Disciplined(s: State, step: Step) {
    && (step.Claim? ==> step.p in s.procs && (Takes(s.procs[step.p]) ==> Timely(s.procs[step.p])))
    && (step.Begin? ==> forall q :: q in s.procs && s.procs[q].id == step.id ==> s.procs[q].scope == step.scope)
  }

  ghost predicate DisciplinedRun(states: seq<State>, steps: seq<Step>) {
    Run(states, steps) && forall n :: 0 <= n < |steps| ==> Disciplined(states[n], steps[n])
  }

  // ---------------------------------------------------------------- what gets registered

  predicate OutcomeInv(q: Proc) {
    && (q.main in {Acquiring, GaveUp, Held, Identified} ==> !q.ran && q.early == NotClaimed && !q.released)
    && (q.main in {Acquiring, GaveUp, Held} ==> q.updateId.None?)
    && (q.main == Running ==> q.ran && !q.outcome)
    && (q.main == Identified || q.ran ==> q.updateId.Some?)
    && (q.outcome ==> q.ran)
    && (q.claimed ==> q.early != NotClaimed && (q.ran || q.updateId.None?))
    && (q.registrations == 1 ==> q.ran)
    && (q.main.Finishing? ==> q.main.handled == q.outcome)
    && (q.main.Settling? ==> q.main.handled == q.outcome && !q.claimed)
    && (q.main == Registering ==> q.outcome && !q.claimed)
    && (q.main == Releasing ==> !q.claimed && (q.registrations == 1 <==> q.outcome))
    && (q.main == Awaiting ==> q.claimed)
    && (q.early == Scheduled && !q.claimed ==> q.main.Settling? || q.released)
    && (q.early == EarlyOver && !q.claimed ==> q.main in {Registering, Releasing, Over})
    && (q.early in {EarlyRegistering, EarlyReleasing} ==> q.claimed)
    && (q.early == EarlyReleasing ==> (q.registrations == 1 <==> q.updateId.Some?))
    && (q.early == EarlyOver && q.claimed ==> (q.registrations == 1 <==> q.updateId.Some?))
    && (q.claimed && q.released ==> q.early != Scheduled)
    && (q.main == Over ==> (q.registrations == 1 <==> q.outcome || (q.claimed && q.ran)))
    && (q.main == Over && q.claimed ==> q.early == EarlyOver)
  }

  lemma OutcomeKeeps(s: State, step: Step)
    requires Enabled(s, step) && Disciplined(s, step) && !step.Begin?
    requires ProcInv(s.procs[step.p]) && OutcomeInv(s.procs[step.p])
    ensures OutcomeInv(Advance(s, step))
  {
  }

  // ---------------------------------------------------------------- the registry and the calls

  ghost predicate SameScope(s: State) {
    forall p, q :: p in s.procs && q in s.procs && s.procs[p].id == s.procs[q].id ==>
      s.procs[p].scope == s.procs[q].scope
  }

  ghost predicate RegisteredBy(s: State, id: UpdateId, p: nat) {
    p in s.procs && s.procs[p].id == id && s.procs[p].registrations == 1
  }

  /** The registry holds exactly the ids some call registered. */
  ghost predicate HandledInv(s: State) {
    && (forall p :: p in s.procs && s.procs[p].registrations == 1 ==> s.procs[p].id in s.handled)
    && (forall id :: id in s.handled ==> exists p :: RegisteredBy(s, id, p))
  }

  /** A processing that still holds its lock and has registered nothing: its id is unregistered. */
  ghost predicate UnsettledInv(s: State) {
    forall p :: p in s.procs && s.procs[p].ran && Locked(s.procs[p]) && s.procs[p].registrations == 0 ==>
      s.procs[p].id !in s.handled
  }

  ghost predicate UniqueInv(s: State) {
    forall p, q :: p in s.procs && q in s.procs && p != q ==>
      !(s.procs[p].id == s.procs[q].id && s.procs[p].registrations == 1 && s.procs[q].registrations == 1)
  }

  ghost predicate ExactInv(s: State) {
    && Inv(s) && SameScope(s) && HandledInv(s) && UnsettledInv(s) && UniqueInv(s)
    && Outcomes(s)
  }

  /** Two calls under one scope never both hold its lock. */
  lemma OneHolder(s: State, p: nat, q: nat)
    requires LockInv(s) && p in s.procs && q in s.procs && s.procs[p].scope == s.procs[q].scope
    requires Locked(s.procs[p]) && Locked(s.procs[q])
    ensures p == q
  {
  }

  predicate Registers(step: Step) {
    step.MainRegister? || step.EarlyRegister?
  }

  /** What a step can change of what the registry invariants look at. */
  lemma Effects(s: State, step: Step)
    requires Enabled(s, step) && !step.Begin? && ProcInv(s.procs[step.p]) && OutcomeInv(s.procs[step.p])
    ensures var q, r, n := s.procs[step.p], Advance(s, step), Apply(s, step);
            && n.procs == s.procs[step.p := r]
            && r.id == q.id && r.scope == q.scope
            && (Registers(step) ==>
                  && q.ran && r.ran && Locked(q) && q.registrations == 0 && r.registrations == 1
                  && n.handled == s.handled + {q.id})
            && (!Registers(step) ==> r.registrations == q.registrations && n.handled == s.handled)
            && (r.ran && !q.ran ==> step.Check? && q.id !in s.handled && Locked(q))
            && (Locked(r) && !Locked(q) ==> step.Acquire? && !r.ran)
  {
  }

  lemma RegisterKeeps(s: State, n: State, p: nat, r: Proc)
    requires LockInv(s) && SameScope(s) && HandledInv(s) && UnsettledInv(s) && UniqueInv(s) && p in s.procs
    requires n.procs == s.procs[p := r] && r.id == s.procs[p].id && r.scope == s.procs[p].scope
    requires s.procs[p].ran && Locked(s.procs[p]) && s.procs[p].registrations == 0
    requires r.registrations == 1 && n.handled == s.handled + {r.id}
    ensures HandledInv(n) && UnsettledInv(n) && UniqueInv(n)
  {
    hide Locked;
    forall id | id in n.handled ensures exists q :: RegisteredBy(n, id, q) {
      if id == r.id {
        assert RegisteredBy(n, id, p);
      } else {
        var q :| RegisteredBy(s, id, q);
        assert RegisteredBy(n, id, q);
      }
    }
    forall q | q in n.procs && n.procs[q].ran && Locked(n.procs[q]) && n.procs[q].registrations == 0
      ensures n.procs[q].id !in n.handled
    {
      if n.procs[q].id == r.id {
        OneHolder(s, p, q);
      }
    }
  }

  lemma OtherKeeps(s: State, n: State, p: nat, r: Proc)
    requires HandledInv(s) && UnsettledInv(s) && UniqueInv(s) && p in s.procs
    requires n.procs == s.procs[p := r] && r.id == s.procs[p].id
    requires r.registrations == s.procs[p].registrations && n.handled == s.handled
    requires r.ran && !s.procs[p].ran ==> r.id !in s.handled
    requires Locked(r) && !Locked(s.procs[p]) ==> !r.ran
    ensures HandledInv(n) && UnsettledInv(n) && UniqueInv(n)
  {
    hide Locked;
    forall id | id in n.handled ensures exists q :: RegisteredBy(n, id, q) {
      var q :| RegisteredBy(s, id, q);
      assert RegisteredBy(n, id, q);
    }
  }

  lemma BeginKeepsRegistry(s: State, n: State, p: nat, r: Proc)
    requires HandledInv(s) && UnsettledInv(s) && UniqueInv(s) && p !in s.procs
    requires n.procs == s.procs[p := r] && n.handled == s.handled && r.registrations == 0 && !r.ran
    ensures HandledInv(n) && UnsettledInv(n) && UniqueInv(n)
  {
    hide Locked;
    forall id | id in n.handled ensures exists q :: RegisteredBy(n, id, q) {
      var q :| RegisteredBy(s, id, q);
      assert RegisteredBy(n, id, q);
    }
  }

  ghost predicate Outcomes(s: State) {
    forall p :: p in s.procs ==> OutcomeInv(s.procs[p])
  }

  lemma ReplaceKeeps(s: State, n: State, p: nat, r: Proc)
    requires SameScope(s) && Outcomes(s) && n.procs == s.procs[p := r] && OutcomeInv(r)
    requires forall q :: q in s.procs && s.procs[q].id == r.id ==> s.procs[q].scope == r.scope
    ensures SameScope(n) && Outcomes(n)
  {
    hide OutcomeInv;
  }

  lemma FreshOutcome(scope: Scope, id: UpdateId)
    ensures OutcomeInv(Proc(scope, id, Acquiring, NotClaimed, false, None, false, false, false, 0, 0))
  {
  }

  lemma ExactKeeps(s: State, step: Step)
    requires ExactInv(s) && Enabled(s, step) && Disciplined(s, step)
    ensures ExactInv(Apply(s, step))
  {
    hide LockInv, ProcInv, OutcomeInv, HandledInv, UnsettledInv, UniqueInv, Advance;
    var n := Apply(s, step);
    StepKeeps(s, step);
    if step.Begin? {
      var r := Proc(step.scope, step.id, Acquiring, NotClaimed, false, None, false, false, false, 0, 0);
      FreshOutcome(step.scope, step.id);
      BeginKeepsRegistry(s, n, step.p, r);
      ReplaceKeeps(s, n, step.p, r);
    } else {
      assert ProcInv(s.procs[step.p]) && OutcomeInv(s.procs[step.p]);
      InvHasLocks(s);
      AdvanceKeepsExact(s, step);
    }
  }

  lemma AdvanceKeepsExact(s: State, step: Step)
    requires LockInv(s) && SameScope(s) && HandledInv(s) && UnsettledInv(s) && UniqueInv(s) && Outcomes(s)
    requires Enabled(s, step) && Disciplined(s, step) && !step.Begin?
    requires ProcInv(s.procs[step.p]) && OutcomeInv(s.procs[step.p])
    ensures var n := Apply(s, step);
            SameScope(n) && HandledInv(n) && UnsettledInv(n) && UniqueInv(n) && Outcomes(n)
  {
    var n, r := Apply(s, step), Advance(s, step);
    OutcomeKeeps(s, step);
    Effects(s, step);
    hide Advance, Apply, ProcInv, OutcomeInv, HandledInv, UnsettledInv, UniqueInv, Locked, LockInv, Disciplined;
    ReplaceKeeps(s, n, step.p, r);
    if Registers(step) {
      RegisterKeeps(s, n, step.p, r);
    } else {
      OtherKeeps(s, n, step.p, r);
    }
  }

  lemma InvHasLocks(s: State)
    requires Inv(s)
    ensures LockInv(s)
  {
  }

  lemma {:induction false} ExactRun(states: seq<State>, steps: seq<Step>, n: nat)
    requires DisciplinedRun(states, steps) && n < |states|
    ensures ExactInv(states[n])
  {
    if n > 0 {
      ExactRun(states, steps, n - 1);
      hide ExactInv, Enabled, Apply, Disciplined;
      ExactKeeps(states[n - 1], steps[n - 1]);
      assert states[n - 1 + 1] == Apply(states[n - 1], steps[n - 1]);
    }
  }

  // ---------------------------------------------------------------- the theorems

  /** At most one processing of an update ever settles as handled. */
  lemma AtMostOneHandled(states: seq<State>, steps: seq<Step>, n: nat, p: nat, q: nat)
    requires DisciplinedRun(states, steps) && n < |states| && p in states[n].procs && q in states[n].procs
    requires states[n].procs[p].id == states[n].procs[q].id
    requires states[n].procs[p].registrations == 1 && states[n].procs[q].registrations == 1
    ensures p == q
  {
    ExactRun(states, steps, n);
  }

  /** When a processing starts, nothing else in its lock scope is unsettled, and no processing of the
      same update has ever settled as handled. */
  lemma StartsAlone(states: seq<State>, steps: seq<Step>, n: nat, q: nat)
    requires DisciplinedRun(states, steps) && n < |steps| && steps[n].Check?
    requires states[n + 1].procs[steps[n].p].main == Running
    requires q in states[n].procs && q != steps[n].p
    ensures states[n].procs[q].scope == states[n].procs[steps[n].p].scope ==> !Locked(states[n].procs[q])
    ensures states[n].procs[q].id == states[n].procs[steps[n].p].id ==>
              !Locked(states[n].procs[q]) && states[n].procs[q].registrations == 0
  {
    var s, p := states[n], steps[n].p;
    ExactRun(states, steps, n);
    assert ProcInv(s.procs[p]) && OutcomeInv(s.procs[p]) && ProcInv(s.procs[q]);
    assert Locked(s.procs[p]);
    if Locked(s.procs[q]) && s.procs[q].scope == s.procs[p].scope {
      OneHolder(s, p, q);
    }
    assert states[n + 1] == Apply(s, steps[n]);
  }

  /** Wide scope, narrow identity: an update that got its lock is dropped only if that very id was
      registered, by another call, before. */
  lemma SkippedOnlyIfRegistered(states: seq<State>, steps: seq<Step>, n: nat)
    requires DisciplinedRun(states, steps) && n < |steps| && steps[n].Check?
    ensures states[n + 1].procs[steps[n].p].main != Running <==>
            exists q :: q != steps[n].p && RegisteredBy(states[n], states[n].procs[steps[n].p].id, q)
  {
    var s, p := states[n], steps[n].p;
    ExactRun(states, steps, n);
    assert ProcInv(s.procs[p]) && OutcomeInv(s.procs[p]);
    assert states[n + 1] == Apply(s, steps[n]);
    if s.procs[p].id in s.handled {
      var q :| RegisteredBy(s, s.procs[p].id, q);
      assert q != p;
    }
  }

  /** A call that ended registered its update exactly when the handlers' end counted (one ran, or
      propagation stopped) or they were reached and a claim won in time. */
  lemma RegisteredIff(states: seq<State>, steps: seq<Step>, n: nat, p: nat)
    requires DisciplinedRun(states, steps) && n < |states| && At(states[n], p, Over)
    ensures var q := states[n].procs[p];
            && (q.registrations == 1 <==> q.outcome || (q.claimed && q.ran))
            && (q.registrations == 1 ==> q.id in states[n].handled)
  {
    ExactRun(states, steps, n);
    assert OutcomeInv(states[n].procs[p]);
  }

  /** No update is recorded as handled without having been given to the handlers. */
  lemma HandledWasProcessed(states: seq<State>, steps: seq<Step>, n: nat, id: UpdateId)
    requires DisciplinedRun(states, steps) && n < |states| && id in states[n].handled
    ensures exists p :: RegisteredBy(states[n], id, p) && states[n].procs[p].ran
  {
    ExactRun(states, steps, n);
    var p :| RegisteredBy(states[n], id, p);
    assert OutcomeInv(states[n].procs[p]);
  }
}
