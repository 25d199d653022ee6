/** `claim_early` called off the event loop (pyroflow/dispatcher.py): another thread looks at the settlement,
    submits the early one, and only then assigns it. One call's settlement, with any number of such threads:
    what stays one-shot, and exactly when the call can end before its lock is back. */
module ThreadClaims {
  import opened Wrappers

  /** How far a claiming thread has got. */
  datatype Claimant = Looked | Submitted

  /** A submitted early settlement. */
  datatype Task = Queued | Registering | Releasing | Done

  /** The dispatcher; `Settling` is between its look at `_early` and its look at `_released`. */
  datatype Main = Working | Settling(handled: bool) | MainRegistering | MainReleasing | Awaiting(task: nat) | Over

  datatype State = State(
    identified: bool,               // `update_id` is set
    released: bool,                 // `_released`
    early: Option<nat>,             // `_early`, as the task it was assigned
    claimants: map<nat, Claimant>,
    tasks: map<nat, Task>,
    main: Main,
    registrations: nat,
    releases: nat)

  datatype Step =
    | Identify
    | Look(c: nat)
    | Submit(c: nat)
    | Assign(c: nat)
    | ClaimAtOnce(c: nat)           // on the event loop, where nothing comes between
    | TaskStart(t: nat)
    | TaskRegister(t: nat)
    | TaskRelease(t: nat)
    | Settle(handled: bool)
    | MainStart
    | MainRegister
    | MainRelease
    | Join

  predicate Init(s: State) {
    s == State(false, false, None, map[], map[], Working, 0, 0)
  }

  /** Nothing else on the event loop runs while the dispatcher is between its two looks. */
  predicate Enabled(s: State, step: Step) {
    match step
    case Identify => s.main == Working && !s.identified
    case Look(c) => c !in s.claimants && c !in s.tasks && s.early == None && !s.released
    case Submit(c) => Lookup(s.claimants, c) == Some(Looked)
    case Assign(c) => Lookup(s.claimants, c) == Some(Submitted)
    case ClaimAtOnce(c) => c !in s.claimants && c !in s.tasks && s.early == None && !s.released && !s.main.Settling?
    case TaskStart(t) => Lookup(s.tasks, t) == Some(Queued) && !s.main.Settling?
    case TaskRegister(t) => Lookup(s.tasks, t) == Some(Registering) && !s.main.Settling?
    case TaskRelease(t) => Lookup(s.tasks, t) == Some(Releasing) && !s.main.Settling?
    case Settle(_) => s.main == Working
    case MainStart => s.main.Settling?
    case MainRegister => s.main == MainRegistering
    case MainRelease => s.main == MainReleasing
    case Join => s.main.Awaiting? && Lookup(s.tasks, s.main.task) == Some(Done)
  }

  function Apply(s: State, step: Step): State
    requires Enabled(s, step)
  {
    match step
    case Identify => s.(identified := true)
    case Look(c) => s.(claimants := s.claimants[c := Looked])
    case Submit(c) => s.(claimants := s.claimants[c := Submitted], tasks := s.tasks[c := Queued])
    case Assign(c) => s.(claimants := s.claimants - {c}, early := Some(c))
    case ClaimAtOnce(c) => s.(tasks := s.tasks[c := Queued], early := Some(c))
    case TaskStart(t) =>
      if s.released then s.(tasks := s.tasks[t := Done])
      else s.(released := true, tasks := s.tasks[t := if s.identified then Registering else Releasing])
    case TaskRegister(t) => s.(tasks := s.tasks[t := Releasing], registrations := s.registrations + 1)
    case TaskRelease(t) => s.(tasks := s.tasks[t := Done], releases := s.releases + 1)
    case Settle(handled) => s.(main := if s.early.Some? then Awaiting(s.early.value) else Settling(handled))
    case MainStart =>
      if s.released then s.(main := Over)
      else s.(released := true, main := if s.main.handled && s.identified then MainRegistering else MainReleasing)
    case MainRegister => s.(main := MainReleasing, registrations := s.registrations + 1)
    case MainRelease => s.(main := Over, releases := s.releases + 1)
    case Join => s.(main := Over)
  }

  ghost predicate Path(states: seq<State>, steps: seq<Step>) {
    && |states| == |steps| + 1
    && forall n :: 0 <= n < |steps| ==> Enabled(states[n], steps[n]) && states[n + 1] == Apply(states[n], steps[n])
  }

  // ---------------------------------------------------------------- one-shot all the same

  /** The task is performing the settlement. */
  predicate Busy(s: State, t: nat) {
    t in s.tasks && s.tasks[t] in {Registering, Releasing}
  }

  predicate MainBusy(s: State) {
    s.main in {MainRegistering, MainReleasing}
  }

  /** At most one settlement is under way, and the lock is back exactly when one has ended. */
  ghost predicate SettlesOnce(s: State) {
    && s.releases <= 1 && s.registrations <= 1
    && (forall t: nat, u: nat :: Busy(s, t) && Busy(s, u) ==> t == u)
    && (forall t: nat :: Busy(s, t) ==> s.released && s.releases == 0 && !MainBusy(s))
    && (MainBusy(s) ==> s.released && s.releases == 0)
    && (s.released ==> s.releases == 1 || MainBusy(s) || exists t: nat :: Busy(s, t))
    && (!s.released ==>
          s.registrations == 0 && s.releases == 0 && forall t :: t in s.tasks ==> s.tasks[t] == Queued)
    && (forall t :: t in s.tasks && s.tasks[t] == Registering ==> s.registrations == 0)
    && (s.main == MainRegistering ==> s.registrations == 0)
    && (s.main == Over ==> s.released)
  }

  /** An assigned or awaited task was submitted, and a thread assigns the task it submitted. */
  ghost predicate TasksSubmitted(s: State) {
    && (forall c :: c in s.claimants ==> s.early != Some(c) && (c in s.tasks <==> s.claimants[c] == Submitted))
    && (s.early.Some? ==> s.early.value in s.tasks)
    && (s.main.Awaiting? ==> s.main.task in s.tasks)
  }

  ghost predicate Inv(s: State) {
    SettlesOnce(s) && TasksSubmitted(s)
  }

  lemma TasksKeep(s: State, step: Step)
    requires TasksSubmitted(s) && Enabled(s, step)
    ensures TasksSubmitted(Apply(s, step))
  {
  }

  lemma SettlesKeep(s: State, step: Step)
    requires SettlesOnce(s) && Enabled(s, step)
    requires forall c :: c in s.claimants ==> (c in s.tasks <==> s.claimants[c] == Submitted)
    ensures SettlesOnce(Apply(s, step))
  {
    var n := Apply(s, step);
    if t: nat :| Busy(s, t) {
      assert (step.TaskRelease? && step.t == t) || Busy(n, t);
    }
    if step.TaskStart? && !s.released {
      assert Busy(n, step.t);
    }
    if step.TaskRegister? || step.TaskRelease? {
      assert Busy(s, step.t);
    }
    forall t: nat | Busy(n, t) ensures Busy(s, t) || (step == TaskStart(t) && !s.released) {
    }
    assert !s.released ==> forall t: nat :: !Busy(s, t);
    assert forall t :: t in s.tasks && s.tasks[t] == Registering ==> Busy(s, t);
  }

  lemma InvKeeps(s: State, step: Step)
    requires Inv(s) && Enabled(s, step)
    ensures Inv(Apply(s, step))
  {
    TasksKeep(s, step);
    SettlesKeep(s, step);
  }

  lemma {:induction false} RunKeeps(states: seq<State>, steps: seq<Step>, n: nat)
    requires Path(states, steps) && Inv(states[0]) && n < |states|
    ensures Inv(states[n])
  {
    hide Inv, Enabled, Apply;
    if n > 0 {
      RunKeeps(states, steps, n - 1);
      InvKeeps(states[n - 1], steps[n - 1]);
      assert states[n - 1 + 1] == Apply(states[n - 1], steps[n - 1]);
    }
  }

  /** Whatever the threads do, the update is registered at most once and the lock given back at most once,
      the registration first; and if the call ends before the lock is back, one task is about to return it. */
  lemma OneShot(states: seq<State>, steps: seq<Step>, n: nat)
    requires Path(states, steps) && Init(states[0]) && n < |states|
    ensures var s := states[n];
            && s.registrations <= 1 && s.releases <= 1
            && (s.main == Over && s.releases == 0 ==> exists t: nat :: Busy(s, t))
            && (n < |steps| && (steps[n].TaskRegister? || steps[n].MainRegister?) ==>
                  s.registrations == 0 && s.releases == 0)
            && (n < |steps| && (steps[n].TaskRelease? || steps[n].MainRelease?) ==> s.releases == 0)
  {
    RunKeeps(states, steps, n);
    var s := states[n];
    if n < |steps| && (steps[n].TaskRegister? || steps[n].TaskRelease?) {
      assert Busy(s, steps[n].t);
    }
  }

  // ---------------------------------------------------------------- when the lock is back in time

  /** The call ended, and its lock is still to be given back. */
  predicate EndedEarly(s: State) {
    s.main == Over && s.releases == 0
  }

  /** The task performs the settlement, or would if it started now. */
  predicate Contends(s: State, t: nat) {
    Busy(s, t) || (Lookup(s.tasks, t) == Some(Queued) && !s.released)
  }

  /** The lock is not back, and a thread stands between its look and its assignment, or some task may settle
      that is not the assigned one. */
  ghost predicate Exposed(s: State) {
    s.releases == 0 && (s.claimants != map[] || exists t: nat :: Contends(s, t) && s.early != Some(t))
  }

  /** From `s` the call can end early, without any further claim from another thread. */
  ghost predicate CanEndEarly(s: State) {
    exists states, steps :: EndsEarly(s, states, steps)
  }

  ghost predicate EndsEarly(s: State, states: seq<State>, steps: seq<Step>) {
    && Path(states, steps) && states[0] == s && EndedEarly(states[|steps|])
    && forall n :: 0 <= n < |steps| ==> !steps[n].Look?
  }

  // What keeps a call that is not exposed from ending early.

  ghost predicate Guarded(s: State) {
    && Inv(s)
    && (s.releases == 0 ==>
          && s.claimants == map[]
          && (forall t: nat :: Contends(s, t) ==> s.early == Some(t))
          && (s.early.Some? && !MainBusy(s) && !s.main.Settling? ==> Contends(s, s.early.value))
          && (s.main.Settling? ==> !s.released && s.early == None)
          && (s.main.Awaiting? ==> s.early == Some(s.main.task))
          && s.main != Over)
  }

  lemma UnexposedIsGuarded(s: State)
    requires Inv(s) && s.main == Working && !Exposed(s)
    ensures Guarded(s)
  {
    if s.releases == 0 && s.early.Some? {
      if s.released {
        var t: nat :| Busy(s, t);
        assert Contends(s, t);
      } else {
        assert s.tasks[s.early.value] == Queued;
      }
    }
  }

  lemma GuardedKeeps(s: State, step: Step)
    requires Guarded(s) && Enabled(s, step) && !step.Look?
    ensures Guarded(Apply(s, step))
  {
    var n := Apply(s, step);
    InvKeeps(s, step);
    if n.releases == 0 {
      if step.Settle? && s.released {
        var t: nat :| Busy(s, t);
        assert Contends(s, t);
      }
      if step.TaskStart? && !s.released {
        assert Contends(s, step.t);
      }
      if n.early.Some? && Busy(s, n.early.value) {
        assert Busy(n, n.early.value);
      }
      forall t: nat | Contends(n, t) ensures n.early == Some(t) {
        assert step == ClaimAtOnce(t) || Contends(s, t);
      }
    }
  }

  lemma {:induction false} PathStaysGuarded(states: seq<State>, steps: seq<Step>, n: nat)
    requires Path(states, steps) && Guarded(states[0]) && n < |states|
    requires forall m :: 0 <= m < |steps| ==> !steps[m].Look?
    ensures Guarded(states[n])
  {
    hide Guarded, Enabled, Apply;
    if n > 0 {
      PathStaysGuarded(states, steps, n - 1);
      GuardedKeeps(states[n - 1], steps[n - 1]);
      assert states[n - 1 + 1] == Apply(states[n - 1], steps[n - 1]);
    }
  }

  // How an exposed call ends early.

  lemma Prepend(s: State, step: Step, states: seq<State>, steps: seq<Step>)
    requires Enabled(s, step) && !step.Look? && EndsEarly(Apply(s, step), states, steps)
    ensures EndsEarly(s, [s] + states, [step] + steps)
  {
    hide Enabled, Apply, EndedEarly;
    var longer, more := [s] + states, [step] + steps;
    forall n | 0 <= n < |more|
      ensures Enabled(longer[n], more[n]) && longer[n + 1] == Apply(longer[n], more[n]) && !more[n].Look?
    {
      if n > 0 {
        assert longer[n] == states[n - 1] && longer[n + 1] == states[n - 1 + 1] && more[n] == steps[n - 1];
      }
    }
  }

  lemma Arrived(s: State)
    requires EndedEarly(s)
    ensures EndsEarly(s, [s], [])
  {
  }

  lemma StepsOn(s: State, step: Step)
    requires Enabled(s, step) && !step.Look? && CanEndEarly(Apply(s, step))
    ensures CanEndEarly(s)
  {
    hide Enabled, Apply, EndsEarly;
    var states, steps :| EndsEarly(Apply(s, step), states, steps);
    Prepend(s, step, states, steps);
  }

  lemma Ended(s: State)
    requires EndedEarly(s)
    ensures CanEndEarly(s)
  {
    Arrived(s);
  }

  /** A task settles while another one, or none, is assigned: the dispatcher does not wait for it. */
  lemma UnawaitedEndsEarly(s: State, t: nat)
    requires Inv(s) && s.main == Working && Busy(s, t) && s.early != Some(t)
    ensures CanEndEarly(s)
  {
    if s.early == None {
      var a := Apply(s, Settle(false));
      Ended(Apply(a, MainStart));
      StepsOn(a, MainStart);
      StepsOn(s, Settle(false));
    } else {
      var e := s.early.value;
      var b := if s.tasks[e] == Queued then Apply(s, TaskStart(e)) else s;
      assert !Busy(s, e);
      var c := Apply(b, Settle(false));
      Ended(Apply(c, Join));
      StepsOn(c, Join);
      StepsOn(b, Settle(false));
      if s.tasks[e] == Queued {
        StepsOn(s, TaskStart(e));
      }
    }
  }

  lemma ContenderEndsEarly(s: State, t: nat)
    requires Inv(s) && s.main == Working && Contends(s, t) && s.early != Some(t)
    ensures CanEndEarly(s)
  {
    if Busy(s, t) {
      UnawaitedEndsEarly(s, t);
    } else {
      InvKeeps(s, TaskStart(t));
      UnawaitedEndsEarly(Apply(s, TaskStart(t)), t);
      StepsOn(s, TaskStart(t));
    }
  }

  lemma SubmittedEndsEarly(s: State, c: nat)
    requires Inv(s) && s.main == Working && s.releases == 0 && Lookup(s.claimants, c) == Some(Submitted)
    ensures CanEndEarly(s)
  {
    if !s.released {
      ContenderEndsEarly(s, c);
    } else {
      var t: nat :| Busy(s, t);
      if s.early != Some(t) {
        ContenderEndsEarly(s, t);
      } else {
        var a := Apply(s, Assign(c));
        InvKeeps(s, Assign(c));
        assert Busy(a, t);
        ContenderEndsEarly(a, t);
        StepsOn(s, Assign(c));
      }
    }
  }

  lemma ExposedEndsEarly(s: State)
    requires Inv(s) && s.main == Working && Exposed(s)
    ensures CanEndEarly(s)
  {
    if c :| c in s.claimants {
      if s.claimants[c] == Submitted {
        SubmittedEndsEarly(s, c);
      } else {
        InvKeeps(s, Submit(c));
        SubmittedEndsEarly(Apply(s, Submit(c)), c);
        StepsOn(s, Submit(c));
      }
    } else {
      assert s.claimants == map[];
      var t: nat :| Contends(s, t) && s.early != Some(t);
      ContenderEndsEarly(s, t);
    }
  }

  // ---------------------------------------------------------------- the theorems

  /** Exactly when a call can end before its lock is back: when, with the lock not back, a claim from another
      thread is in between, or has left a task that may settle without being the one waited for. */
  lemma EndsEarlyExactly(s: State)
    requires Inv(s) && s.main == Working
    ensures CanEndEarly(s) <==> Exposed(s)
  {
    if Exposed(s) {
      ExposedEndsEarly(s);
    } else {
      UnexposedIsGuarded(s);
      hide Inv, Exposed, Guarded, EndedEarly;
      forall states, steps | EndsEarly(s, states, steps) ensures false {
        PathStaysGuarded(states, steps, |steps|);
        GuardedIsBack(states[|steps|]);
      }
    }
  }

  lemma GuardedIsBack(s: State)
    requires Guarded(s)
    ensures !EndedEarly(s)
  {
  }

  /** Where every claim is made on the event loop, the lock is back whenever a call has ended. */
  lemma LoopClaimsSettle(states: seq<State>, steps: seq<Step>, n: nat)
    requires Path(states, steps) && Init(states[0]) && n < |states|
    requires forall m :: 0 <= m < |steps| ==> !steps[m].Look?
    requires states[n].main == Over
    ensures states[n].releases == 1
  {
    PathStaysGuarded(states, steps, n);
  }
}
