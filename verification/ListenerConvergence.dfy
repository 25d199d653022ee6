/** When every superseded waiter hears of it: signals that are not lost reach every listener that
    lost its registration, and exactly which steps break that. */
module ListenerConvergence {
  import opened Wrappers
  import opened ListenerKeys
  import opened ListenerSteps
  import opened ListenerProtocol
  import opened ListenerTheorems

  /** The listener is the registry's current entry, or a signal naming it is on its way to it. */
  ghost predicate Notified(s: State, t: Token)
    requires t in s.calls
  {
    || Lookup(s.registry, s.calls[t].key) == Some(t)
    || InFlight(s.calls[t].sid, s.calls[t].key, t) in s.signals
  }

  ghost predicate Convergent(s: State) {
    forall t :: t in s.calls && Lookup(s.futures, t) == Some(Pending) ==> Notified(s, t)
  }

  /** A step that silently takes a registration, or its signal, from a pending listener. */
  ghost predicate Drops(s: State, step: Step) {
    match step
    case LoseStep(g) =>
      g.token in s.calls && g.sid == s.calls[g.token].sid && Lookup(s.futures, g.token) == Some(Pending)
    case StopStep(i) =>
      exists t :: t in s.calls && s.calls[t].sid == i && Lookup(s.futures, t) == Some(Pending)
                  && Lookup(s.registry, s.calls[t].key) == Some(t)
    case _ => false
  }

  // ---------------------------------------------------------------- in the middle of a step

  ghost predicate NotifiedMid(s: State, l: Local) {
    forall t :: t in s.calls && Lookup(l.futures, t) == Some(Pending) ==>
      || Lookup(l.registry, s.calls[t].key) == Some(t)
      || InFlight(s.calls[t].sid, s.calls[t].key, t) in s.signals
      || Signal(s.calls[t].key, t) in l.channel
  }

  lemma InvalidateNotifies(s: State, l: Local, key: ListenerKey)
    requires NotifiedMid(s, l)
    ensures NotifiedMid(s, Invalidate(l, key))
  {
    var n := Invalidate(l, key);
    forall t | t in s.calls && Lookup(l.futures, t) == Some(Pending) && Signal(s.calls[t].key, t) in l.channel
      ensures Signal(s.calls[t].key, t) in n.channel
    {
    }
    if key in l.registry {
      assert n.channel[|l.channel|] == Signal(key, l.registry[key]);
    }
  }

  lemma CancelNotifies(s: State, l: Local, key: ListenerKey, coordinator: bool, duplicate: bool,
                       generation: Option<Token>)
    requires NotifiedMid(s, l) && l.Closed()
    ensures NotifiedMid(s, Cancel(l, key, coordinator, duplicate, generation).0)
  {
    hide Invalidate;
    if key in l.listeners {
      var failed := l.(listeners := l.listeners - {key},
                       futures := l.futures[l.listeners[key] := Failed(ListenerCancelled(duplicate))]);
      assert NotifiedMid(s, failed);
      InvalidateNotifies(s, failed, key);
    } else {
      InvalidateNotifies(s, l, key);
    }
  }

  lemma EnterNotifies(s: State, i: nat, l: Local, key: ListenerKey, token: Token)
    requires NotifiedMid(s, l) && l.Closed() && token !in s.calls && key !in l.registry
    ensures NotifiedMid(WithCall(s, i, key, token), Enter(l, key, token).0)
  {
  }

  lemma {:induction false} ResolveNotifies(s: State, l: Local, subs: seq<ListenerKey>, bypass: bool,
                                           update: Update)
    requires NotifiedMid(s, l) && l.Closed()
    ensures NotifiedMid(s, Resolve(l, subs, bypass, update).0)
    decreases |subs|
  {
    if |subs| > 0 && subs[0] in l.listeners {
      var held := Some(l.listeners[subs[0]]);
      CancelNotifies(s, l, subs[0], false, false, held);
      CancelNotifies(s, l, subs[0], true, false, held);
      ResolveNotifies(s, Cancel(l, subs[0], false, false, held).0, subs[1..], bypass, update);
      hide Cancel;
    } else if |subs| > 0 {
      ResolveNotifies(s, l, subs[1..], bypass, update);
    }
  }

  lemma EndNotified(s: State, i: nat, l: Local, s': State)
    requires i < |s.sessions| && NotifiedMid(s, l)
    requires forall t :: t in s.calls ==> s.calls[t].sid < |s.sessions|
    requires s'.registry == l.registry && s'.futures == l.futures
    requires s'.signals == s.signals + Broadcast(|s.sessions|, l.channel)
    requires s'.calls.Keys == s.calls.Keys && KeepsCalls(s, s')
    ensures Convergent(s')
  {
    forall t | t in s'.calls && Lookup(s'.futures, t) == Some(Pending) ensures Notified(s', t) {
      if Signal(s.calls[t].key, t) in l.channel {
        assert InFlight(s.calls[t].sid, Signal(s.calls[t].key, t).key, Signal(s.calls[t].key, t).token)
               in Broadcast(|s.sessions|, l.channel);
      }
    }
  }

  lemma BeginNotified(s: State, i: nat)
    requires Convergent(s) && i < |s.sessions|
    ensures NotifiedMid(s, View(s, i))
  {
    forall t | t in s.calls && Lookup(s.futures, t) == Some(Pending)
      ensures Lookup(s.registry, s.calls[t].key) == Some(t) || InFlight(s.calls[t].sid, s.calls[t].key, t) in s.signals
    {
      assert Notified(s, t);
    }
  }

  // ---------------------------------------------------------------- each step

  lemma ListenNotifiesMid(s: State, i: nat, l: Local, key: ListenerKey, policy: DuplicatePolicy, token: Token)
    requires NotifiedMid(s, l) && l.Closed() && token !in s.calls
    ensures var (after, outcome) := Listen(l, key, policy, token);
            NotifiedMid(if outcome.Ok? then WithCall(s, i, key, token) else s, after)
  {
    CancelNotifies(s, l, key, true, true, None);
    CancelFrees(l, key, true);
    var (cleared, outcome) := Cancel(l, key, true, true, None);
    hide Cancel, NotifiedMid;
    if key in l.registry {
      if outcome.Ok? { EnterNotifies(s, i, cleared, key, token); }
    } else {
      EnterNotifies(s, i, l, key, token);
    }
  }

  lemma ListenNotifies(s: State, i: nat, key: ListenerKey, policy: DuplicatePolicy, token: Token, s': State)
    requires Inv(s) && Convergent(s) && Next(s, ListenStep(i, key, policy, token), s')
    ensures Convergent(s')
  {
    hide Listen, NotifiedMid, Convergent, RegistryInv, SessionInv, PendingInv, SignalsInv, LogInv, Broadcast;
    var (after, outcome) := Listen(View(s, i), key, policy, token);
    var base := if outcome.Ok? then WithCall(s, i, key, token) else s;
    BeginNotified(s, i);
    ListenNotifiesMid(s, i, View(s, i), key, policy, token);
    EndNotified(base, i, after, s');
  }

  lemma ReceiveNotifies(s: State, g: InFlight, s': State)
    requires Inv(s) && Convergent(s) && Next(s, ReceiveStep(g), s')
    ensures Convergent(s')
  {
    hide LogInv, RegistryInv, SignalsInv, SessionInv;
    var i := g.sid;
    BeginNotified(s, i);
    CancelNotifies(s, View(s, i), g.key, false, false, Some(g.token));
    var l := Cancel(View(s, i), g.key, false, false, Some(g.token)).0;
    if g.token in s.calls && s.futures[g.token] == Pending {
      assert Stored(s, g.token);
    }
    forall t | t in s'.calls && Lookup(s'.futures, t) == Some(Pending) ensures Notified(s', t) {
    }
  }

  lemma NothingToBroadcast(sessions: nat)
    ensures Broadcast(sessions, []) == {}
  {
  }

  lemma ReleaseNotifies(s: State, token: Token, s': State)
    requires Inv(s) && Convergent(s) && Next(s, ReleaseStep(token), s')
    ensures Convergent(s')
  {
    hide LogInv, RegistryInv, SignalsInv, SessionInv, Broadcast;
    assert Broadcast(|s.sessions|, []) == {} by { NothingToBroadcast(|s.sessions|); }
    forall t | t in s'.calls && Lookup(s'.futures, t) == Some(Pending) ensures Notified(s', t) {
      assert Stored(s, t);
      assert Notified(s, t);
    }
  }

  lemma QuietNotifies(s: State, step: Step, s': State)
    requires Inv(s) && Convergent(s) && Next(s, step, s')
    requires step.AbortStep? || step.CallbackStep? || step.LeaveStep?
    ensures Convergent(s')
  {
    forall t | t in s'.calls && Lookup(s'.futures, t) == Some(Pending) ensures Notified(s', t) {
      assert Notified(s, t);
    }
  }

  lemma LoseExactly(s: State, g: InFlight, s': State)
    requires Inv(s) && Convergent(s) && Next(s, LoseStep(g), s')
    ensures Convergent(s') <==> !Drops(s, LoseStep(g))
  {
    if Drops(s, LoseStep(g)) {
      assert !Notified(s', g.token);
    } else {
      forall t | t in s'.calls && Lookup(s'.futures, t) == Some(Pending) ensures Notified(s', t) {
        assert Notified(s, t);
      }
    }
  }

  lemma StopExactly(s: State, i: nat, s': State)
    requires Inv(s) && Convergent(s) && Next(s, StopStep(i), s')
    ensures Convergent(s') <==> !Drops(s, StopStep(i))
  {
    hide LogInv, PendingInv, SessionInv;
    StopRemovesExactlyOwn(s, i, s');
    assert s'.signals == s.signals && s'.futures == s.futures && s'.calls == s.calls;
    hide Next, RegistryInv;
    if Drops(s, StopStep(i)) {
      var t :| t in s.calls && s.calls[t].sid == i && Lookup(s.futures, t) == Some(Pending)
               && Lookup(s.registry, s.calls[t].key) == Some(t);
      assert !Notified(s', t);
    } else {
      forall t | t in s'.calls && Lookup(s'.futures, t) == Some(Pending) ensures Notified(s', t) {
        assert Notified(s, t);
      }
    }
  }

  lemma ResolveStepNotifies(s: State, i: nat, key: ListenerKey, bypass: bool, update: Update, s': State)
    requires Inv(s) && Convergent(s) && Next(s, ResolveStep(i, key, bypass, update), s')
    ensures Convergent(s')
  {
    hide Resolve, SubKeys, Convergent, NotifiedMid, RegistryInv, SessionInv, PendingInv, SignalsInv, LogInv, Broadcast;
    BeginNotified(s, i);
    ResolveNotifies(s, View(s, i), SubKeys(key, 1), bypass, update);
    EndNotified(s, i, Resolve(View(s, i), SubKeys(key, 1), bypass, update).0, s');
  }

  lemma CancelStepNotifies(s: State, i: nat, key: ListenerKey, coordinator: bool, duplicate: bool,
                           generation: Option<Token>, s': State)
    requires Inv(s) && Convergent(s) && Next(s, CancelStep(i, key, coordinator, duplicate, generation), s')
    ensures Convergent(s')
  {
    hide Cancel, Convergent, NotifiedMid, RegistryInv, SessionInv, PendingInv, SignalsInv, LogInv, Broadcast;
    BeginNotified(s, i);
    CancelNotifies(s, View(s, i), key, coordinator, duplicate, generation);
    EndNotified(s, i, Cancel(View(s, i), key, coordinator, duplicate, generation).0, s');
  }

  /** Convergence survives a step exactly when the step neither loses a pending listener's signal
      nor stops a session whose registered listener is still pending. */
  lemma ConvergenceExact(s: State, step: Step, s': State)
    requires Inv(s) && Convergent(s) && Next(s, step, s')
    ensures Convergent(s') <==> !Drops(s, step)
  {
    hide Inv, Convergent, Next;
    match step
    case ListenStep(i, key, policy, token) => ListenNotifies(s, i, key, policy, token, s');
    case ResolveStep(i, key, bypass, update) => ResolveStepNotifies(s, i, key, bypass, update, s');
    case CancelStep(i, key, coordinator, duplicate, generation) =>
      CancelStepNotifies(s, i, key, coordinator, duplicate, generation, s');
    case ReceiveStep(g) => ReceiveNotifies(s, g, s');
    case LoseStep(g) => LoseExactly(s, g, s');
    case AbortStep(_) => QuietNotifies(s, step, s');
    case CallbackStep(_) => QuietNotifies(s, step, s');
    case LeaveStep(_) => QuietNotifies(s, step, s');
    case ReleaseStep(token) => ReleaseNotifies(s, token, s');
    case StopStep(i) => StopExactly(s, i, s');
  }

  // ---------------------------------------------------------------- runs

  ghost predicate Lossless(states: seq<State>, steps: seq<Step>)
    requires |states| == |steps| + 1
  {
    forall n :: 0 <= n < |steps| ==> !Drops(states[n], steps[n])
  }

  lemma {:induction false} Convergence(states: seq<State>, steps: seq<Step>, n: nat)
    requires Run(states, steps) && Lossless(states, steps) && n < |states|
    ensures Convergent(states[n])
  {
    hide Inv, Next, Drops;
    if n > 0 {
      Convergence(states, steps, n - 1);
      RunKeeps(states, steps, n - 1);
      assert Next(states[n - 1], steps[n - 1], states[n - 1 + 1]);
      ConvergenceExact(states[n - 1], steps[n - 1], states[n]);
    }
  }

  /** Once every signal is drained, each pending listener owns its registry entry. */
  lemma DrainedOwn(states: seq<State>, steps: seq<Step>, n: nat, t: Token)
    requires Run(states, steps) && Lossless(states, steps) && n < |states|
    requires states[n].signals == {} && Lookup(states[n].futures, t) == Some(Pending)
    ensures t in states[n].calls && states[n].calls[t].sid < |states[n].sessions|
    ensures Owns(View(states[n], states[n].calls[t].sid), states[n].calls[t].key)
  {
    Convergence(states, steps, n);
    NoOrphanedWaiter(states, steps, n, t);
    assert Notified(states[n], t);
  }

  /** Where nothing was lost, "out of sync" needs a stored listener that is already completed or
      whose signal is still on its way. */
  lemma OutOfSyncNeedsLag(s: State, i: nat, key: ListenerKey, policy: DuplicatePolicy, token: Token)
    requires Inv(s) && Convergent(s) && i < |s.sessions| && View(s, i).Closed()
    requires Listen(View(s, i), key, policy, token).1 == Err(OutOfSync)
    ensures key in s.sessions[i].listeners
    ensures var t := s.sessions[i].listeners[key];
            Done(s, t) || InFlight(i, key, t) in s.signals
  {
    assert SessionInv(s, i);
    var t := s.sessions[i].listeners[key];
    if !Done(s, t) {
      assert Notified(s, t);
    }
  }

  // ---------------------------------------------------------------- what loss can do

  /** Losing a pending listener's last signal leaves it waiting for nobody: no signal names it any more,
      and a `listen` for its key on that session fails as "out of sync" exactly when nobody else has
      registered the key. */
  lemma LossLeavesOutOfSync(s: State, g: InFlight, s': State, policy: DuplicatePolicy, token: Token)
    requires Inv(s) && Convergent(s) && Next(s, LoseStep(g), s') && Drops(s, LoseStep(g))
    ensures g.sid < |s'.sessions| && View(s', g.sid).Closed()
    ensures Listen(View(s', g.sid), g.key, policy, token).1 == Err(OutOfSync) <==> g.key !in s.registry
    ensures Lookup(s'.futures, g.token) == Some(Pending) && g !in s'.signals
    ensures Lookup(s'.sessions[g.sid].listeners, g.key) == Some(g.token)
    ensures forall h :: h in s'.signals && h.token == g.token ==> h.sid != g.sid
  {
    BeginStep(s, g.sid);
    hide LogInv, RegistryInv, OwnedInv;
    assert g in s.signals && s.calls[g.token].key == g.key;
    assert Stored(s, g.token);
  }

  /** Two sessions: session 1 listens, session 0 cancels, the signal to session 1 is lost. */
  function LossSteps(key: ListenerKey): seq<Step> {
    [ListenStep(1, key, REPLACE, 7),
     CancelStep(0, key, true, false, None),
     LoseStep(InFlight(1, key, 7))]
  }

  function Listening(key: ListenerKey): State {
    State(map[key := 7], [Session(map[], map[]), Session(map[key := 7], map[key := 7])],
          map[7 := Call(1, key, Waiting)], map[7 := Pending], {}, [])
  }

  function LossStates(key: ListenerKey): seq<State> {
    var empty := Session(map[], map[]);
    var start := State(map[], [empty, empty], map[], map[], {}, []);
    var cancelled := Listening(key).(registry := map[], signals := {InFlight(0, key, 7), InFlight(1, key, 7)});
    [start, Listening(key), cancelled, cancelled.(signals := {InFlight(0, key, 7)})]
  }

  lemma LossCancels(key: ListenerKey)
    ensures Next(LossStates(key)[1], LossSteps(key)[1], LossStates(key)[2])
  {
    var s, channel := Listening(key), [Signal(key, 7)];
    assert Broadcast(2, channel) == {InFlight(0, key, 7), InFlight(1, key, 7)} by {
      assert channel[0] in channel;
    }
    assert Cancel(View(s, 0), key, true, false, None).0 == Local(map[], map[], map[], map[7 := Pending], channel);
    assert s.sessions[0 := Session(map[], map[])] == s.sessions;
  }

  /** The loss can happen: a run of three steps to that error, with the listener still pending. */
  lemma LossReachesOutOfSync(key: ListenerKey)
    ensures var states, steps := LossStates(key), LossSteps(key);
            && Run(states, steps)
            && View(states[3], 1).Closed()
            && Listen(View(states[3], 1), key, REPLACE, 8).1 == Err(OutOfSync)
            && states[3].futures[7] == Pending
  {
    var states, steps := LossStates(key), LossSteps(key);
    assert Next(states[0], steps[0], states[1]) by {
      assert Broadcast(2, []) == {};
    }
    LossCancels(key);
    assert Next(states[2], steps[2], states[3]) by {
      assert states[2].signals - {InFlight(1, key, 7)} == {InFlight(0, key, 7)};
    }
  }
}
