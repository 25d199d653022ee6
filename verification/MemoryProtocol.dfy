/** The in-process backend: one session, whose registry and listeners never drift apart. */
module MemoryProtocol {
  import opened Wrappers
  import opened ListenerKeys
  import opened ListenerSteps
  import opened ListenerProtocol

  /** Every stored listener's token is the registered one. */
  ghost predicate InSync(l: Local) {
    forall k :: k in l.listeners ==> Lookup(l.registry, k) == Some(l.listeners[k])
  }

  lemma CancelInSync(l: Local, key: ListenerKey, coordinator: bool, duplicate: bool, generation: Option<Token>)
    requires InSync(l) && l.Closed()
    ensures InSync(Cancel(l, key, coordinator, duplicate, generation).0)
  {
  }

  lemma {:induction false} ResolveInSync(l: Local, subs: seq<ListenerKey>, bypass: bool, update: Update)
    requires InSync(l) && l.Closed()
    ensures InSync(Resolve(l, subs, bypass, update).0)
    decreases |subs|
  {
    if |subs| > 0 && subs[0] in l.listeners {
      CancelInSync(l, subs[0], true, false, Some(l.listeners[subs[0]]));
    } else if |subs| > 0 {
      ResolveInSync(l, subs[1..], bypass, update);
    }
  }

  lemma ListenInSync(l: Local, key: ListenerKey, policy: DuplicatePolicy, token: Token)
    requires InSync(l) && l.Closed()
    ensures InSync(Listen(l, key, policy, token).0)
    ensures Listen(l, key, policy, token).1 != Err(OutOfSync)
    ensures Listen(l, key, policy, token).1 != Err(KeyTaken)
  {
    CancelInSync(l, key, true, true, None);
    CancelFrees(l, key, true);
    hide Cancel;
  }

  /** The calls other than `listen` and `resolve`, on one session. */
  lemma LocalInSync(s: State, key: ListenerKey, token: Token)
    requires |s.sessions| == 1 && InSync(View(s, 0))
    ensures InSync(Cleanup(View(s, 0), key, token))
    ensures SessionInv(s, 0) && Minted(s, 0, key, token) && s.calls[token].phase == Leaving ==>
              InSync(Unregister(View(s, 0), key, token))
  {
  }

  lemma LeavesTables(s: State, step: Step, s': State)
    requires Next(s, step, s') && |s.sessions| == 1 && !step.StopStep?
    ensures |s'.sessions| == 1
    ensures View(s, 0).Closed()
    ensures View(s', 0).registry == Moved(View(s, 0), s, step).registry
    ensures View(s', 0).listeners == Moved(View(s, 0), s, step).listeners
  {
    hide Listen, Resolve, Cancel, Cleanup, Unregister, SubKeys, Broadcast, Done, DropEntry, Minted;
  }

  lemma StepInSync(s: State, step: Step, s': State)
    requires Inv(s) && Next(s, step, s') && !step.StopStep?
    requires |s.sessions| == 1 && InSync(View(s, 0))
    ensures |s'.sessions| == 1 && InSync(View(s', 0))
  {
    var l := View(s, 0);
    assert SessionInv(s, 0);
    LeavesTables(s, step, s');
    hide Inv, SessionInv, InSync, SubKeys, Listen, Resolve, Cancel, Cleanup, Unregister, Apply;
    match step {
      case ListenStep(_, key, policy, token) => ListenInSync(l, key, policy, token);
      case ResolveStep(_, key, bypass, update) => ResolveInSync(l, SubKeys(key, 1), bypass, update);
      case CancelStep(_, key, coordinator, duplicate, generation) =>
        CancelInSync(l, key, coordinator, duplicate, generation);
      case ReceiveStep(g) => CancelInSync(l, g.key, false, false, Some(g.token));
      case CallbackStep(token) => LocalInSync(s, s.calls[token].key, token);
      case LeaveStep(token) => LocalInSync(s, s.calls[token].key, token);
      case ReleaseStep(token) => LocalInSync(s, s.calls[token].key, token);
      case _ =>
    }
    TablesDecide(Moved(View(s, 0), s, step), View(s', 0));
  }

  lemma TablesDecide(l: Local, n: Local)
    requires InSync(l) && n.registry == l.registry && n.listeners == l.listeners
    ensures InSync(n)
  {
  }

  /** Stopping while a listener is still stored is what breaks it. */
  lemma StopBreaksSync(s: State, s': State, k: ListenerKey)
    requires Inv(s) && |s.sessions| == 1 && InSync(View(s, 0)) && Next(s, StopStep(0), s')
    requires k in s.sessions[0].listeners
    ensures |s'.sessions| == 1 && !InSync(View(s', 0))
  {
    var t := s.registry[k];
    assert SessionInv(s, 0);
    assert Lookup(s.sessions[s.calls[t].sid].owned, k) == Some(t);
    assert k in s'.sessions[0].listeners && k !in s'.registry;
  }

  lemma OnlySession(s: State, step: Step, s': State)
    requires Next(s, step, s') && |s.sessions| == 1 && step.StopStep?
    ensures step == StopStep(0)
  {
    hide Apply;
  }

  lemma StopsQuietly(s: State, step: Step, s': State)
    requires Next(s, step, s') && |s.sessions| == 1 && step.StopStep? && s.sessions[0].listeners == map[]
    ensures |s'.sessions| == 1 && InSync(View(s', 0))
  {
  }

  /** A step leaves the two tables agreeing exactly unless it is a stop with a listener still stored. */
  lemma SyncExact(s: State, step: Step, s': State)
    requires Inv(s) && Next(s, step, s') && |s.sessions| == 1 && InSync(View(s, 0))
    ensures |s'.sessions| == 1
    ensures InSync(View(s', 0)) <==> !(step.StopStep? && s.sessions[0].listeners != map[])
  {
    hide Inv, Next, InSync;
    if !step.StopStep? {
      StepInSync(s, step, s');
    } else if k :| k in s.sessions[0].listeners {
      assert Next(s, StopStep(0), s') by { OnlySession(s, step, s'); }
      StopBreaksSync(s, s', k);
    } else {
      assert s.sessions[0].listeners == map[];
      StopsQuietly(s, step, s');
    }
  }

  ghost predicate Running(states: seq<State>, steps: seq<Step>) {
    Run(states, steps) && |states[0].sessions| == 1
    && forall n :: 0 <= n < |steps| ==> !steps[n].StopStep?
  }

  /** Between start and stop the two tables agree, and `listen` never finds them out of sync. */
  lemma {:induction false} MemoryStaysInSync(states: seq<State>, steps: seq<Step>, n: nat)
    requires Running(states, steps) && n < |states|
    ensures |states[n].sessions| == 1 && InSync(View(states[n], 0)) && View(states[n], 0).Closed()
    ensures forall key, policy, token :: Listen(View(states[n], 0), key, policy, token).1 != Err(OutOfSync)
  {
    RunKeeps(states, steps, n);
    if n > 0 {
      MemoryStaysInSync(states, steps, n - 1);
      RunKeeps(states, steps, n - 1);
      assert Next(states[n - 1], steps[n - 1], states[n - 1 + 1]);
      StepInSync(states[n - 1], steps[n - 1], states[n]);
    }
    InvCloses(states[n]);
    forall key, policy, token ensures Listen(View(states[n], 0), key, policy, token).1 != Err(OutOfSync) {
      ListenInSync(View(states[n], 0), key, policy, token);
    }
  }

  lemma InvCloses(s: State)
    requires Inv(s)
    ensures forall i :: 0 <= i < |s.sessions| ==> View(s, i).Closed()
  {
    forall i | 0 <= i < |s.sessions| ensures View(s, i).Closed() {
      BeginStep(s, i);
    }
  }
}
