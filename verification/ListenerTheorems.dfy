/** What the listener protocol guarantees over every run of any number of sessions. */
module ListenerTheorems {
  import opened Wrappers
  import opened ListenerKeys
  import opened ListenerSteps
  import opened ListenerProtocol

  // ---------------------------------------------------------------- fenced delivery

  /** `d` is handed over from `s` by the session that minted its token, for a candidate of the
      update's key, while the registry maps the key to exactly that token. */
  ghost predicate FencedFrom(s: State, step: Step, d: Delivery) {
    && step.ResolveStep? && step.i == d.sid && step.update == d.update && !step.bypass
    && d.sid < |s.sessions| && Matches(step.key, d.key)
    && Minted(s, d.sid, d.key, d.token)
    && Lookup(s.registry, d.key) == Some(d.token)
    && d.token in s.futures && s.futures[d.token] == Pending
    && !Logged(s.log, d.token)
  }

  lemma {:induction false} BypassNeverDelivers(l: Local, subs: seq<ListenerKey>, update: Update)
    requires l.Closed()
    ensures !Resolve(l, subs, true, update).1.Delivered?
    decreases |subs|
  {
    if |subs| > 0 && subs[0] in l.listeners {
      BypassNeverDelivers(Cancel(l, subs[0], false, false, Some(l.listeners[subs[0]])).0, subs[1..], update);
    } else if |subs| > 0 {
      BypassNeverDelivers(l, subs[1..], update);
    }
  }

  /** The first delivered candidate satisfied the fence when the step began: discarding others on
      the way to it changed neither the registry nor its own listener. */
  lemma {:induction false} DeliveredWasOwned(l: Local, subs: seq<ListenerKey>, bypass: bool, update: Update)
    requires l.Closed() && OwnTokens(l)
    ensures Fenced(l, subs, Resolve(l, subs, bypass, update).1)
    decreases |subs|
  {
    if |subs| > 0 {
      if subs[0] in l.listeners && !Owns(l, subs[0]) {
        var next := Cancel(l, subs[0], false, false, Some(l.listeners[subs[0]])).0;
        DeliveredWasOwned(next, subs[1..], bypass, update);
      } else if subs[0] !in l.listeners {
        DeliveredWasOwned(l, subs[1..], bypass, update);
      }
    }
  }

  lemma ResolveDelivers(s: State, i: nat, key: ListenerKey, bypass: bool, update: Update)
    requires Inv(s) && i < |s.sessions| && View(s, i).Closed()
    ensures var end := Resolve(View(s, i), SubKeys(key, 1), bypass, update).1;
            end.Delivered? ==>
              FencedFrom(s, ResolveStep(i, key, bypass, update), Delivery(i, end.key, end.token, update))
  {
    var l, subs := View(s, i), SubKeys(key, 1);
    BeginStep(s, i);
    DeliveredWasOwned(l, subs, bypass, update);
    BypassNeverDelivers(l, subs, update);
    var end := Resolve(l, subs, bypass, update).1;
    if end.Delivered? {
      SubKeysExact(key, 1, end.key);
      assert SessionInv(s, i);
    }
  }

  lemma StepDelivers(s: State, step: Step, s': State)
    requires Inv(s) && Next(s, step, s')
    ensures s'.log == s.log ||
            (|s'.log| == |s.log| + 1 && s'.log[..|s.log|] == s.log && FencedFrom(s, step, s'.log[|s.log|]))
  {
    hide Inv, SubKeys, Cancel, Listen, Resolve, FencedFrom;
    if step.ResolveStep? {
      ResolveDelivers(s, step.i, step.key, step.bypass, step.update);
    }
  }

  /** Entry `m` of the final log was appended by step `n` of the run, and satisfied the fence. */
  ghost predicate DeliveredAt(states: seq<State>, steps: seq<Step>, m: nat, n: nat)
    requires |states| == |steps| + 1
  {
    && n < |steps| && m < |states[|steps|].log|
    && |states[n].log| == m && |states[n + 1].log| == m + 1
    && FencedFrom(states[n], steps[n], states[|steps|].log[m])
  }

  lemma {:induction false} LogGrows(states: seq<State>, steps: seq<Step>, m: nat, n: nat)
    requires Run(states, steps) && m <= n < |states|
    ensures states[m].log <= states[n].log
  {
    hide Inv, Next, FencedFrom;
    if m < n {
      LogGrows(states, steps, m, n - 1);
      RunKeeps(states, steps, n - 1);
      assert Next(states[n - 1], steps[n - 1], states[n - 1 + 1]);
      StepDelivers(states[n - 1], steps[n - 1], states[n]);
    }
  }

  ghost predicate EntryFenced(states: seq<State>, steps: seq<Step>, m: nat)
    requires |states| == |steps| + 1
  {
    exists n :: DeliveredAt(states, steps, m, n)
  }

  lemma {:induction false} FindDelivery(states: seq<State>, steps: seq<Step>, m: nat, n: nat) returns (at: nat)
    requires Run(states, steps) && n < |states| && m < |states[n].log|
    ensures at < n && |states[at].log| == m && |states[at + 1].log| == m + 1
    ensures FencedFrom(states[at], steps[at], states[at + 1].log[m])
  {
    hide Inv, Next, FencedFrom;
    assert n > 0;
    RunKeeps(states, steps, n - 1);
    assert Next(states[n - 1], steps[n - 1], states[n - 1 + 1]);
    StepDelivers(states[n - 1], steps[n - 1], states[n]);
    if m < |states[n - 1].log| {
      at := FindDelivery(states, steps, m, n - 1);
    } else {
      at := n - 1;
    }
  }

  /** Every delivery of a run is made by the session that minted the listener's token, while the
      registry maps that key to exactly that token; and no token is delivered twice. */
  lemma FencedDelivery(states: seq<State>, steps: seq<Step>)
    requires Run(states, steps)
    ensures var log := states[|steps|].log;
            && (forall m :: 0 <= m < |log| ==> EntryFenced(states, steps, m))
            && (forall m, n :: 0 <= m < n < |log| ==> log[m].token != log[n].token)
  {
    var log := states[|steps|].log;
    forall m | 0 <= m < |log| ensures EntryFenced(states, steps, m) {
      var n := FindDelivery(states, steps, m, |steps|);
      LogGrows(states, steps, n + 1, |steps|);
      assert log[m] == states[n + 1].log[m];
      assert DeliveredAt(states, steps, m, n);
    }
    RunKeeps(states, steps, |steps|);
  }

  /** From one state, two deliveries under one key are the same session handing over the same token. */
  lemma NoTwoDeliverers(s: State, a: Step, s1: State, b: Step, s2: State)
    requires Inv(s) && Next(s, a, s1) && Next(s, b, s2)
    requires |s1.log| > |s.log| && |s2.log| > |s.log|
    ensures var (d, e) := (s1.log[|s.log|], s2.log[|s.log|]);
            d.key == e.key ==> d.sid == e.sid && d.token == e.token
  {
    hide Inv, Next;
    StepDelivers(s, a, s1);
    StepDelivers(s, b, s2);
  }

  // ---------------------------------------------------------------- generations

  /** No minted token enters the registry, and no completed future changes. */
  ghost predicate Calm(l: Local, n: Local, minted: set<Token>) {
    && (forall k :: k in n.registry && n.registry[k] in minted ==> Lookup(l.registry, k) == Some(n.registry[k]))
    && (forall t :: t in l.futures && l.futures[t] != Pending ==> t in n.futures && n.futures[t] == l.futures[t])
  }

  lemma CancelIsCalm(l: Local, key: ListenerKey, coordinator: bool, duplicate: bool, generation: Option<Token>,
                     minted: set<Token>)
    requires l.Closed()
    ensures Calm(l, Cancel(l, key, coordinator, duplicate, generation).0, minted)
  {
  }

  lemma ListenIsCalm(l: Local, key: ListenerKey, policy: DuplicatePolicy, token: Token, minted: set<Token>)
    requires l.Closed() && token !in minted && token !in l.futures
    ensures Calm(l, Listen(l, key, policy, token).0, minted)
  {
    CancelIsCalm(l, key, true, true, None, minted);
    hide Cancel;
  }

  lemma {:induction false} ResolveIsCalm(l: Local, subs: seq<ListenerKey>, bypass: bool, update: Update,
                                         minted: set<Token>)
    requires l.Closed()
    ensures Calm(l, Resolve(l, subs, bypass, update).0, minted)
    decreases |subs|
  {
    if |subs| > 0 && subs[0] in l.listeners {
      var held := Some(l.listeners[subs[0]]);
      CancelIsCalm(l, subs[0], false, false, held, minted);
      CancelIsCalm(l, subs[0], true, false, held, minted);
      var next := Cancel(l, subs[0], false, false, held).0;
      ResolveIsCalm(next, subs[1..], bypass, update, minted);
      hide Cancel;
    } else if |subs| > 0 {
      ResolveIsCalm(l, subs[1..], bypass, update, minted);
    }
  }

  /** One step never revives a generation, rewrites a call's identity, or changes an outcome. */
  ghost predicate Onward(s: State, s': State) {
    && (forall t :: t in s.calls ==>
          t in s'.calls && s'.calls[t].sid == s.calls[t].sid && s'.calls[t].key == s.calls[t].key)
    && (forall k :: k in s'.registry && s'.registry[k] in s.calls ==>
          Lookup(s.registry, k) == Some(s'.registry[k]))
    && (forall t :: t in s.futures && s.futures[t] != Pending ==>
          t in s'.futures && s'.futures[t] == s.futures[t])
  }

  ghost predicate KeepsCalls(s: State, s': State) {
    forall t :: t in s.calls ==>
      t in s'.calls && s'.calls[t].sid == s.calls[t].sid && s'.calls[t].key == s.calls[t].key
  }

  lemma CalmIsOnward(s: State, i: nat, l: Local, s': State)
    requires i < |s.sessions| && Calm(View(s, i), l, s.calls.Keys)
    requires s'.registry == l.registry && s'.futures == l.futures && KeepsCalls(s, s')
    ensures Onward(s, s')
  {
  }

  lemma LocalStepIsCalm(s: State, i: nat, key: ListenerKey, token: Token)
    requires i < |s.sessions|
    ensures Calm(View(s, i), Cleanup(View(s, i), key, token), s.calls.Keys)
    ensures Calm(View(s, i), Unregister(View(s, i), key, token), s.calls.Keys)
    ensures Calm(View(s, i), StopCoordinator(View(s, i)), s.calls.Keys)
  {
  }

  lemma StepIsOnward(s: State, step: Step, s': State)
    requires Inv(s) && Next(s, step, s')
    ensures Onward(s, s')
  {
    hide Inv, SubKeys, Cancel, Listen, Resolve, Cleanup, Unregister, StopCoordinator, Calm, Onward;
    match step
    case ListenStep(i, key, policy, token) =>
      ListenIsCalm(View(s, i), key, policy, token, s.calls.Keys);
      CalmIsOnward(s, i, Listen(View(s, i), key, policy, token).0, s');
    case ResolveStep(i, key, bypass, update) =>
      ResolveIsCalm(View(s, i), SubKeys(key, 1), bypass, update, s.calls.Keys);
      CalmIsOnward(s, i, Resolve(View(s, i), SubKeys(key, 1), bypass, update).0, s');
    case CancelStep(i, key, coordinator, duplicate, generation) =>
      CancelIsCalm(View(s, i), key, coordinator, duplicate, generation, s.calls.Keys);
      CalmIsOnward(s, i, Cancel(View(s, i), key, coordinator, duplicate, generation).0, s');
    case ReceiveStep(g) =>
      CancelIsCalm(View(s, g.sid), g.key, false, false, Some(g.token), s.calls.Keys);
      CalmIsOnward(s, g.sid, Cancel(View(s, g.sid), g.key, false, false, Some(g.token)).0, s');
    case CallbackStep(token) =>
      var i, key := s.calls[token].sid, s.calls[token].key;
      LocalStepIsCalm(s, i, key, token);
      CalmIsOnward(s, i, Cleanup(View(s, i), key, token), s');
    case LeaveStep(token) =>
      var i, key := s.calls[token].sid, s.calls[token].key;
      LocalStepIsCalm(s, i, key, token);
      CalmIsOnward(s, i, Cleanup(View(s, i), key, token), s');
    case ReleaseStep(token) =>
      var i, key := s.calls[token].sid, s.calls[token].key;
      LocalStepIsCalm(s, i, key, token);
      CalmIsOnward(s, i, Unregister(View(s, i), key, token), s');
    case StopStep(i) =>
      LocalStepIsCalm(s, i, ListenerKey(0, None, None), 0);
      CalmIsOnward(s, i, StopCoordinator(View(s, i)), s');
    case AbortStep(_) => AbortIsOnward(s, step, s');
    case LoseStep(_) => AbortIsOnward(s, step, s');
  }

  lemma AbortIsOnward(s: State, step: Step, s': State)
    requires Next(s, step, s') && (step.AbortStep? || step.LoseStep?)
    ensures Onward(s, s')
  {
  }

  lemma {:induction false} RunIsOnward(states: seq<State>, steps: seq<Step>, m: nat, n: nat, t: Token)
    requires Run(states, steps) && m <= n < |states| && t in states[m].calls
    ensures t in states[n].calls
    ensures states[n].calls[t].key == states[m].calls[t].key && states[n].calls[t].sid == states[m].calls[t].sid
    ensures Lookup(states[m].registry, states[m].calls[t].key) != Some(t) ==>
              Lookup(states[n].registry, states[m].calls[t].key) != Some(t)
    ensures Done(states[m], t) ==> Done(states[n], t) && states[n].futures[t] == states[m].futures[t]
  {
    hide Inv, Next;
    if m < n {
      RunIsOnward(states, steps, m, n - 1, t);
      RunKeeps(states, steps, n - 1);
      assert Next(states[n - 1], steps[n - 1], states[n - 1 + 1]);
      StepIsOnward(states[n - 1], steps[n - 1], states[n]);
    }
  }

  /** Once superseded, a listener never owns its key again and nothing is ever delivered to it. */
  lemma SupersededNeverDelivers(states: seq<State>, steps: seq<Step>, m: nat, n: nat, t: Token)
    requires Run(states, steps) && m <= n < |states| && t in states[m].calls
    requires Lookup(states[m].registry, states[m].calls[t].key) != Some(t)
    ensures Lookup(states[n].registry, states[m].calls[t].key) != Some(t)
    ensures forall e :: |states[m].log| <= e < |states[n].log| ==> states[n].log[e].token != t
  {
    RunIsOnward(states, steps, m, n, t);
    forall e | |states[m].log| <= e < |states[n].log| ensures states[n].log[e].token != t {
      var at := FindDelivery(states, steps, e, n);
      if at < m {
        LogGrows(states, steps, at + 1, m);
      }
      RunIsOnward(states, steps, m, at, t);
      LogGrows(states, steps, at + 1, n);
      assert states[n].log[e] == states[at + 1].log[e];
    }
  }

  /** A waiter gets at most one outcome: a completed future keeps what it was completed with. */
  lemma OneOutcome(states: seq<State>, steps: seq<Step>, m: nat, n: nat, t: Token)
    requires Run(states, steps) && m <= n < |states| && Done(states[m], t)
    ensures t in states[n].futures && states[n].futures[t] == states[m].futures[t]
  {
    RunKeeps(states, steps, m);
    hide Next;
    RunIsOnward(states, steps, m, n, t);
  }

  /** No waiter is orphaned: a pending future is stored in its own session's table, under its own
      key and token, so it can still be resolved, cancelled or signalled. */
  lemma NoOrphanedWaiter(states: seq<State>, steps: seq<Step>, n: nat, t: Token)
    requires Run(states, steps) && n < |states|
    requires t in states[n].futures && states[n].futures[t] == Pending
    ensures t in states[n].calls && Stored(states[n], t)
  {
    RunKeeps(states, steps, n);
  }

  // ---------------------------------------------------------------- conservation

  /** A registered token belongs to a `listen` that has not finished, recorded by its session. */
  lemma RegistrationsConserved(states: seq<State>, steps: seq<Step>, n: nat, k: ListenerKey)
    requires Run(states, steps) && n < |states| && k in states[n].registry
    ensures var s, t := states[n], states[n].registry[k];
            && t in s.calls && s.calls[t].key == k && s.calls[t].phase != Finished
            && s.calls[t].sid < |s.sessions|
            && Lookup(s.sessions[s.calls[t].sid].owned, k) == Some(t)
  {
    RunKeeps(states, steps, n);
  }

  /** `stop` removes exactly the entries its own session minted. */
  lemma StopRemovesExactlyOwn(s: State, i: nat, s': State)
    requires Inv(s) && Next(s, StopStep(i), s')
    ensures forall k :: k in s'.registry <==> k in s.registry && s.calls[s.registry[k]].sid != i
    ensures forall k :: k in s'.registry ==> s'.registry[k] == s.registry[k]
    ensures s'.sessions[i].owned == map[]
  {
    assert SessionInv(s, i);
    forall k | k in s.registry
      ensures (Lookup(s.sessions[i].owned, k) == Some(s.registry[k])) == (s.calls[s.registry[k]].sid == i)
    {
    }
  }

  /** Applying a signal never fails a listener that still owns its registration, and touches no registration. */
  lemma SignalsSpareOwners(s: State, g: InFlight, s': State, k: ListenerKey)
    requires Inv(s) && Next(s, ReceiveStep(g), s') && Owns(View(s, g.sid), k)
    ensures |s'.sessions| == |s.sessions| && Owns(View(s', g.sid), k) && s'.registry == s.registry
    ensures forall t :: Lookup(s.sessions[g.sid].listeners, k) == Some(t) ==>
              Lookup(s'.futures, t) == Lookup(s.futures, t)
  {
    assert SessionInv(s, g.sid);
    SignalSpares(View(s, g.sid), g.key, g.token, k);
  }

  lemma SignalSpares(l: Local, key: ListenerKey, token: Token, k: ListenerKey)
    requires l.Closed() && OwnTokens(l) && Owns(l, k) && Lookup(l.registry, key) != Some(token)
    ensures var n := Cancel(l, key, false, false, Some(token)).0;
            Owns(n, k) && n.listeners[k] == l.listeners[k]
            && n.futures[l.listeners[k]] == l.futures[l.listeners[k]]
  {
  }
}
