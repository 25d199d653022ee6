/** The listener objects in the protocol: each method of an object that shows its session's share of a
    protocol state takes that session's step, or steps, and leaves the object showing its share again. */
module ListenerObjects {
  import opened Wrappers
  import opened ListenerKeys
  import opened ListenerSteps
  import opened ListenerProtocol
  import opened ListenerRefinement
  import opened UpdateListeners

  /** `own` is what session `i`'s object sees in the state. */
  ghost predicate Shown(own: Local, s: State, i: nat) {
    Inv(s) && i < |s.sessions| && Sees(own, View(s, i), own.channel)
  }

  ghost predicate Shows(listener: UpdateListener, s: State, i: nat)
    reads listener, listener.coordinator, listener.coordinator.redis, listener.futures.Values
  {
    listener.Valid() && Shown(listener.Seen(), s, i)
  }

  lemma Closes(s: State)
    requires Inv(s)
    ensures forall i :: 0 <= i < |s.sessions| ==> View(s, i).Closed()
  {
    forall i | 0 <= i < |s.sessions| ensures View(s, i).Closed() {
      BeginStep(s, i);
    }
  }

  /** What a method leaves of what the object sees is what it sees after the step. */
  lemma TakesStep(s: State, step: Step, own: Local)
    requires Enabled(s, step) && Performed(step) && Shown(own, s, Actor(s, step))
    ensures Next(s, step, Apply(s, step)) && Shown(Moved(own, s, step), Apply(s, step), Actor(s, step))
  {
    hide Inv, Apply, Moved, Sees;
    NextKeeps(s, step, Apply(s, step));
    var _ := StepSimulates(s, step, Apply(s, step), own);
  }

  method CancelInStep(listener: UpdateListener, key: ListenerKey, cancelCoordinator: bool, isDuplicate: bool,
                      coordinatorId: Option<Token>, ghost s: State, ghost i: nat)
    returns (r: Result<bool, ListenError>, ghost s': State)
    requires Shows(listener, s, i)
    modifies listener`listeners, listener.coordinator, listener.coordinator.redis, listener.futures.Values
    ensures Next(s, CancelStep(i, key, cancelCoordinator, isDuplicate, coordinatorId), s') && Shows(listener, s', i)
  {
    Closes(s);
    hide Inv, Sees, ListenerSteps.Cancel, Apply;
    TakesStep(s, CancelStep(i, key, cancelCoordinator, isDuplicate, coordinatorId), listener.Seen());
    s' := Apply(s, CancelStep(i, key, cancelCoordinator, isDuplicate, coordinatorId));
    r := listener.Cancel(key, cancelCoordinator, isDuplicate, coordinatorId);
  }

  /** `_apply_cancel_signal`: a signal that arrives is a cancellation of the generation it names, and no word of
      it to the coordinator. */
  method ReceiveInStep(listener: UpdateListener, key: ListenerKey, coordinatorId: Token, ghost s: State, ghost i: nat)
    returns (ghost s': State)
    requires Shows(listener, s, i) && InFlight(i, key, coordinatorId) in s.signals
    modifies listener`listeners, listener.coordinator, listener.coordinator.redis, listener.futures.Values
    ensures Next(s, ReceiveStep(InFlight(i, key, coordinatorId)), s') && Shows(listener, s', i)
  {
    Closes(s);
    hide Inv, Sees, ListenerSteps.Cancel, Apply;
    TakesStep(s, ReceiveStep(InFlight(i, key, coordinatorId)), listener.Seen());
    s' := Apply(s, ReceiveStep(InFlight(i, key, coordinatorId)));
    var _ := listener.Cancel(key, false, false, Some(coordinatorId));
  }

  /** The entry section of `listen`, with an identifier nobody drew before. */
  method RegisterInStep(listener: UpdateListener, key: ListenerKey, uuid: Token, ghost s: State, ghost i: nat)
    returns (r: Result<FutureCell, ListenError>, ghost s': State)
    requires Shows(listener, s, i) && uuid !in s.calls && uuid !in s.futures
    modifies listener, listener.coordinator, listener.coordinator.redis, listener.futures.Values
    ensures Next(s, ListenStep(i, key, listener.duplicatePolicy, uuid), s') && Shows(listener, s', i)
  {
    Closes(s);
    assert uuid !in listener.futures by {
      assert uuid !in listener.Statuses();
    }
    hide Inv, Sees, Listen, Apply;
    TakesStep(s, ListenStep(i, key, listener.duplicatePolicy, uuid), listener.Seen());
    s' := Apply(s, ListenStep(i, key, listener.duplicatePolicy, uuid));
    r := listener.Register(key, uuid);
  }

  method ResolveInStep(listener: UpdateListener, key: ListenerKey, bypass: bool, update: Update,
                       ghost s: State, ghost i: nat)
    returns (r: ResolveResult, ghost s': State)
    requires Shows(listener, s, i)
    modifies listener`listeners, listener.coordinator, listener.coordinator.redis, listener.futures.Values
    ensures if r == Skipped then s' == s else Next(s, ResolveStep(i, key, bypass, update), s')
    ensures Shows(listener, s', i)
  {
    Closes(s);
    hide Inv, Sees, ListenerSteps.Resolve, SubKeys, Apply;
    TakesStep(s, ResolveStep(i, key, bypass, update), listener.Seen());
    r := listener.Resolve(key, bypass, update);
    s' := if r == Skipped then s else Apply(s, ResolveStep(i, key, bypass, update));
  }

  /** The done-callback of a call of this session. */
  method CleanupInStep(listener: UpdateListener, f: FutureCell, ghost token: Token, key: ListenerKey,
                       ghost s: State, ghost i: nat) returns (ghost s': State)
    requires Shows(listener, s, i) && token in listener.futures && listener.futures[token] == f
    requires Minted(s, i, key, token) && Done(s, token)
    modifies listener`listeners
    ensures Next(s, CallbackStep(token), s') && Shows(listener, s', i)
  {
    Closes(s);
    hide Inv, Sees, Cleanup, Apply;
    TakesStep(s, CallbackStep(token), listener.Seen());
    s' := Apply(s, CallbackStep(token));
    listener.CleanupListen(key, f, token);
  }

  lemma LeavesCall(s: State, token: Token)
    requires Enabled(s, LeaveStep(token))
    ensures var n := Apply(s, LeaveStep(token));
            token in n.calls && n.calls[token] == s.calls[token].(phase := Leaving) && |n.sessions| == |s.sessions|
  {
    hide Cleanup;
  }

  lemma FinishesInSteps(s: State, i: nat, own: Local, key: ListenerKey, token: Token) returns (left: State, s': State)
    requires Shown(own, s, i) && Minted(s, i, key, token) && Done(s, token) && s.calls[token].phase == Waiting
    ensures own.Closed() && Next(s, LeaveStep(token), left) && Next(left, ReleaseStep(token), s')
    ensures Shown(Unregister(Cleanup(own, key, token), key, token), s', i)
  {
    Closes(s);
    LeavesCall(s, token);
    hide Inv, Sees, Cleanup, Unregister, Apply;
    TakesStep(s, LeaveStep(token), own);
    left := Apply(s, LeaveStep(token));
    Closes(left);
    TakesStep(left, ReleaseStep(token), Cleanup(own, key, token));
    s' := Apply(left, ReleaseStep(token));
  }

  /** The finally clause is two steps, with nothing of this object in between: the call leaves its table,
      then gives its registration back. */
  method FinishInSteps(listener: UpdateListener, key: ListenerKey, f: FutureCell, token: Token,
                       ghost s: State, ghost i: nat)
    returns (ghost left: State, ghost s': State)
    requires Shows(listener, s, i) && token in listener.futures && listener.futures[token] == f
    requires Minted(s, i, key, token) && Done(s, token) && s.calls[token].phase == Waiting
    modifies listener`listeners, listener.coordinator, listener.coordinator.redis
    ensures Next(s, LeaveStep(token), left) && Next(left, ReleaseStep(token), s') && Shows(listener, s', i)
  {
    hide Inv, Sees, Next, Cleanup, Unregister;
    left, s' := FinishesInSteps(s, i, listener.Seen(), key, token);
    listener.Finish(key, f, token);
  }

  ghost predicate Chained(states: seq<State>, steps: seq<Step>) {
    && |states| == |steps| + 1
    && forall n :: 0 <= n < |steps| ==> Next(states[n], steps[n], states[n + 1])
  }

  function CancelSteps(i: nat, keys: seq<ListenerKey>): (steps: seq<Step>)
    ensures |steps| == |keys|
    ensures forall n :: 0 <= n < |keys| ==> steps[n] == CancelStep(i, keys[n], true, false, None)
  {
    seq(|keys|, n requires 0 <= n < |keys| => CancelStep(i, keys[n], true, false, None))
  }

  lemma Links(states: seq<State>, steps: seq<Step>, step: Step, n: State)
    requires Chained(states, steps) && Next(states[|steps|], step, n)
    ensures Chained(states + [n], steps + [step])
  {
    hide Next;
  }

  lemma CancelAllGrows(own: Local, front: seq<ListenerKey>, last: ListenerKey)
    requires own.Closed()
    ensures CancelAll(own, front + [last]) == ListenerSteps.Cancel(CancelAll(own, front), last, true, false, None).0
  {
    hide ListenerSteps.Cancel;
    assert (front + [last])[..|front|] == front;
  }

  /** The gathered cancellations are one step each. */
  lemma {:induction false} CancelsInSteps(s: State, i: nat, own: Local, keys: seq<ListenerKey>)
    returns (states: seq<State>)
    requires Shown(own, s, i)
    ensures own.Closed() && Chained(states, CancelSteps(i, keys)) && states[0] == s
    ensures Shown(CancelAll(own, keys), states[|keys|], i)
    decreases |keys|
  {
    hide Inv, ListenerSteps.Cancel, Apply, Next;
    if |keys| == 0 {
      states := [s];
    } else {
      var front, last := keys[..|keys| - 1], keys[|keys| - 1];
      var earlier := CancelsInSteps(s, i, own, front);
      var n, step := earlier[|front|], CancelStep(i, last, true, false, None);
      Closes(n);
      hide Sees;
      TakesStep(n, step, CancelAll(own, front));
      CancelAllGrows(own, front, last);
      hide CancelAll;
      assert keys == front + [last];
      Links(earlier, CancelSteps(i, front), step, Apply(n, step));
      assert CancelSteps(i, keys) == CancelSteps(i, front) + [step];
      states := earlier + [Apply(n, step)];
    }
  }

  /** `stop` is a cancellation of each active key and then the coordinator's stop. */
  method StopInSteps(listener: UpdateListener, ghost s: State, ghost i: nat)
    returns (active: seq<ListenerKey>, ghost states: seq<State>)
    requires Shows(listener, s, i)
    modifies listener`listeners, listener.coordinator, listener.coordinator.redis, listener.futures.Values
    ensures Distinct(active) && forall k :: k in active <==> k in old(listener.listeners)
    ensures Chained(states, CancelSteps(i, active) + [StopStep(i)]) && states[0] == s
    ensures Shows(listener, states[|active| + 1], i)
  {
    hide Inv, CancelAll, StopCoordinator, Apply, Next;
    ghost var own := listener.Seen();
    active := listener.Stop();
    ghost var cancelled := CancelsInSteps(s, i, own, active);
    ghost var n := cancelled[|active|];
    Closes(n);
    TakesStep(n, StopStep(i), CancelAll(own, active));
    Links(cancelled, CancelSteps(i, active), StopStep(i), Apply(n, StopStep(i)));
    states := cancelled + [Apply(n, StopStep(i))];
  }
}
