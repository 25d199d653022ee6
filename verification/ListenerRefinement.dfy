/** A session's own view, with only its own futures and whatever was published before, moves exactly
    as its share of the whole protocol state does: each method of a session object is one protocol step. */
module ListenerRefinement {
  import opened Wrappers
  import opened ListenerKeys
  import opened ListenerSteps
  import opened ListenerProtocol
  import TokenSafety

  ghost predicate Within(own: map<Token, Future>, whole: map<Token, Future>) {
    forall t :: t in own ==> t in whole && whole[t] == own[t]
  }

  /** `own` is what a session object sees of `whole`. */
  ghost predicate Sees(own: Local, whole: Local, published: seq<Signal>) {
    && own.registry == whole.registry && own.listeners == whole.listeners && own.owned == whole.owned
    && Within(own.futures, whole.futures)
    && own.channel == published + whole.channel
    && own.Closed() && whole.Closed()
  }

  /** Futures of other sessions, which a step of this one must leave alone. */
  ghost predicate LeavesOthers(own: Local, before: Local, after: Local) {
    forall t :: t in before.futures && t !in own.futures ==> t in after.futures && after.futures[t] == before.futures[t]
  }

  lemma InvalidateAgrees(own: Local, whole: Local, published: seq<Signal>, key: ListenerKey)
    requires Sees(own, whole, published)
    ensures Sees(Invalidate(own, key), Invalidate(whole, key), published)
  {
    if key in own.registry {
      var g := Signal(key, own.registry[key]);
      assert (published + whole.channel) + [g] == published + (whole.channel + [g]);
    }
  }

  lemma PopAgrees(own: Local, whole: Local, published: seq<Signal>, key: ListenerKey, status: Future)
    requires Sees(own, whole, published) && key in own.listeners
    ensures var t := own.listeners[key];
            && Sees(own.(listeners := own.listeners - {key}), whole.(listeners := whole.listeners - {key}), published)
            && Sees(own.(listeners := own.listeners - {key}, futures := own.futures[t := status]),
                    whole.(listeners := whole.listeners - {key}, futures := whole.futures[t := status]), published)
  {
  }

  lemma CancelAgrees(own: Local, whole: Local, published: seq<Signal>, key: ListenerKey, coordinator: bool,
                     duplicate: bool, generation: Option<Token>)
    requires Sees(own, whole, published)
    ensures var (a, ra) := Cancel(own, key, coordinator, duplicate, generation);
            var (b, rb) := Cancel(whole, key, coordinator, duplicate, generation);
            ra == rb && Sees(a, b, published)
  {
    InvalidateAgrees(own, whole, published, key);
    if key in own.listeners {
      var t, status := own.listeners[key], Failed(ListenerCancelled(duplicate));
      PopAgrees(own, whole, published, key, status);
      InvalidateAgrees(own.(listeners := own.listeners - {key}, futures := own.futures[t := status]),
                       whole.(listeners := whole.listeners - {key}, futures := whole.futures[t := status]),
                       published, key);
      assert whole.futures[t] == own.futures[t];
    }
    hide Invalidate, Within;
  }

  lemma CancelLeavesOthers(own: Local, whole: Local, published: seq<Signal>, key: ListenerKey, coordinator: bool,
                           duplicate: bool, generation: Option<Token>)
    requires Sees(own, whole, published)
    ensures LeavesOthers(own, whole, Cancel(whole, key, coordinator, duplicate, generation).0)
  {
  }

  lemma EnterAgrees(own: Local, whole: Local, published: seq<Signal>, key: ListenerKey, uuid: Token)
    requires Sees(own, whole, published) && uuid !in whole.futures
    ensures var (a, ra) := Enter(own, key, uuid);
            var (b, rb) := Enter(whole, key, uuid);
            ra == rb && Sees(a, b, published) && LeavesOthers(own, whole, b)
  {
  }

  lemma ListenAgrees(own: Local, whole: Local, published: seq<Signal>, key: ListenerKey, policy: DuplicatePolicy,
                     uuid: Token)
    requires Sees(own, whole, published) && uuid !in whole.futures
    ensures var (a, ra) := Listen(own, key, policy, uuid);
            var (b, rb) := Listen(whole, key, policy, uuid);
            ra == rb && Sees(a, b, published) && LeavesOthers(own, whole, b)
  {
    var a, b := Cancel(own, key, true, true, None), Cancel(whole, key, true, true, None);
    CancelAgrees(own, whole, published, key, true, true, None);
    CancelLeavesOthers(own, whole, published, key, true, true, None);
    assert a.0.futures.Keys == own.futures.Keys && b.0.futures.Keys == whole.futures.Keys;
    EnterAgrees(own, whole, published, key, uuid);
    EnterAgrees(a.0, b.0, published, key, uuid);
    hide Cancel, Enter, Sees;
    assert own.registry == whole.registry && own.listeners == whole.listeners by {
      InvalidateAgrees(own, whole, published, key);
      SeesTables(own, whole, published);
    }
  }

  lemma SeesTables(own: Local, whole: Local, published: seq<Signal>)
    requires Sees(own, whole, published)
    ensures own.registry == whole.registry && own.listeners == whole.listeners
  {
  }

  lemma DeliverAgrees(own: Local, whole: Local, published: seq<Signal>, key: ListenerKey, update: Update)
    requires Sees(own, whole, published) && key in own.listeners
    ensures var t := own.listeners[key];
            own.futures[t] == whole.futures[t]
            && Sees(own.(futures := own.futures[t := Resolved(update)]),
                    whole.(futures := whole.futures[t := Resolved(update)]), published)
            && LeavesOthers(own, whole, whole.(futures := whole.futures[t := Resolved(update)]))
  {
  }

  lemma LeavesOthersChain(own: Local, whole: Local, mid: Local, after: Local, own': Local)
    requires LeavesOthers(own, whole, mid) && LeavesOthers(own', mid, after)
    requires own'.futures.Keys == own.futures.Keys
    ensures LeavesOthers(own, whole, after)
  {
  }

  lemma TryAgrees(own: Local, whole: Local, published: seq<Signal>, sub: ListenerKey, bypass: bool, update: Update)
    requires Sees(own, whole, published)
    ensures var (a, ra) := Try(own, sub, bypass, update);
            var (b, rb) := Try(whole, sub, bypass, update);
            ra == rb && Sees(a, b, published) && LeavesOthers(own, whole, b) && a.futures.Keys == own.futures.Keys
  {
    SeesTables(own, whole, published);
    if sub in own.listeners {
      var held := Some(own.listeners[sub]);
      CancelAgrees(own, whole, published, sub, false, false, held);
      CancelAgrees(own, whole, published, sub, true, false, held);
      CancelLeavesOthers(own, whole, published, sub, false, false, held);
      CancelLeavesOthers(own, whole, published, sub, true, false, held);
      DeliverAgrees(own, whole, published, sub, update);
      assert LeavesOthers(own, whole, whole);
      hide Cancel, Sees, LeavesOthers;
    }
  }

  lemma {:induction false} ResolveAgrees(own: Local, whole: Local, published: seq<Signal>, subs: seq<ListenerKey>,
                                         bypass: bool, update: Update)
    requires Sees(own, whole, published)
    ensures var (a, ra) := Resolve(own, subs, bypass, update);
            var (b, rb) := Resolve(whole, subs, bypass, update);
            ra == rb && Sees(a, b, published) && LeavesOthers(own, whole, b)
    decreases |subs|
  {
    ResolveUnfolds(own, subs, bypass, update);
    ResolveUnfolds(whole, subs, bypass, update);
    assert LeavesOthers(own, whole, whole);
    hide Resolve, Try, Sees, LeavesOthers;
    if |subs| > 0 {
      TryAgrees(own, whole, published, subs[0], bypass, update);
      var a, b := Try(own, subs[0], bypass, update), Try(whole, subs[0], bypass, update);
      if a.1.None? {
        ResolveAgrees(a.0, b.0, published, subs[1..], bypass, update);
        LeavesOthersChain(own, whole, b.0, Resolve(b.0, subs[1..], bypass, update).0, a.0);
      }
    }
  }

  /** The steps that complete nothing. */
  lemma TableStepsAgree(own: Local, whole: Local, published: seq<Signal>, key: ListenerKey, token: Token)
    requires Sees(own, whole, published)
    ensures Sees(Cleanup(own, key, token), Cleanup(whole, key, token), published)
    ensures Sees(Unregister(own, key, token), Unregister(whole, key, token), published)
    ensures Sees(StopCoordinator(own), StopCoordinator(whole), published)
  {
  }

  // ---------------------------------------------------------------- one method, one step

  /** What a method leaves of a session's own view is what it leaves of that session's whole view. */
  lemma MovedAgrees(s: State, step: Step, own: Local, whole: Local, published: seq<Signal>)
    requires Enabled(s, step) && Performed(step) && Sees(own, whole, published)
    requires step.ListenStep? ==> step.token !in whole.futures
    ensures Sees(Moved(own, s, step), Moved(whole, s, step), published)
    ensures LeavesOthers(own, whole, Moved(whole, s, step))
  {
    hide Listen, Resolve, Cancel, Cleanup, Unregister, StopCoordinator, Sees, LeavesOthers, SubKeys;
    match step {
      case ListenStep(_, key, policy, token) => ListenAgrees(own, whole, published, key, policy, token);
      case ResolveStep(_, key, bypass, update) => ResolveAgrees(own, whole, published, SubKeys(key, 1), bypass, update);
      case CancelStep(_, key, coordinator, duplicate, generation) =>
        CancelAgrees(own, whole, published, key, coordinator, duplicate, generation);
        CancelLeavesOthers(own, whole, published, key, coordinator, duplicate, generation);
      case ReceiveStep(signal) =>
        CancelAgrees(own, whole, published, signal.key, false, false, Some(signal.token));
        CancelLeavesOthers(own, whole, published, signal.key, false, false, Some(signal.token));
      case CallbackStep(token) => TablesLeaveOthers(own, whole, published, s.calls[token].key, token);
      case LeaveStep(token) => TablesLeaveOthers(own, whole, published, s.calls[token].key, token);
      case ReleaseStep(token) => TablesLeaveOthers(own, whole, published, s.calls[token].key, token);
      case StopStep(_) => TablesLeaveOthers(own, whole, published, ListenerKey(0, None, None), 0);
    }
  }

  lemma TablesLeaveOthers(own: Local, whole: Local, published: seq<Signal>, key: ListenerKey, token: Token)
    requires Sees(own, whole, published)
    ensures Sees(Cleanup(own, key, token), Cleanup(whole, key, token), published)
    ensures Sees(Unregister(own, key, token), Unregister(whole, key, token), published)
    ensures Sees(StopCoordinator(own), StopCoordinator(whole), published)
    ensures LeavesOthers(own, whole, Cleanup(whole, key, token))
    ensures LeavesOthers(own, whole, Unregister(whole, key, token))
    ensures LeavesOthers(own, whole, StopCoordinator(whole))
  {
    TableStepsAgree(own, whole, published, key, token);
  }

  /** A protocol step replaces its session's share by what its method leaves, and broadcasts what the
      method published. */
  lemma StepPutsMoved(s: State, step: Step, s': State)
    requires Next(s, step, s') && Performed(step)
    ensures var i := Actor(s, step);
            var l := Moved(View(s, i), s, step);
            && |s'.sessions| == |s.sessions| && View(s', i) == l.(channel := [])
            && s'.signals == (if step.ReceiveStep? then s.signals - {step.signal} else s.signals)
                             + Broadcast(|s.sessions|, l.channel)
            && forall j :: 0 <= j < |s.sessions| && j != i ==> s'.sessions[j] == s.sessions[j]
  {
    hide Listen, Resolve, Cancel, Cleanup, Unregister, StopCoordinator, SubKeys, Broadcast;
    if step.ReceiveStep? {
      ReceivePublishesNothing(View(s, step.signal.sid), step.signal);
      assert Broadcast(|s.sessions|, []) == {} by { NothingBroadcast(|s.sessions|); }
    }
  }

  lemma ReceivePublishesNothing(l: Local, signal: InFlight)
    requires l.Closed()
    ensures Cancel(l, signal.key, false, false, Some(signal.token)).0.channel == l.channel
  {
  }

  lemma NothingBroadcast(sessions: nat)
    ensures Broadcast(sessions, []) == {}
  {
  }

  /** The method of session `i`'s object is the protocol's step: the object goes on seeing its share of the
      state, and what it published in between is what the step broadcast. */
  lemma StepSimulates(s: State, step: Step, s': State, own: Local) returns (messages: seq<Signal>)
    requires Next(s, step, s') && Performed(step) && Sees(own, View(s, Actor(s, step)), own.channel)
    ensures var n := Moved(own, s, step);
            && n.channel == own.channel + messages
            && |s'.sessions| == |s.sessions| && Sees(n, View(s', Actor(s, step)), n.channel)
            && s'.signals == (if step.ReceiveStep? then s.signals - {step.signal} else s.signals)
                             + Broadcast(|s.sessions|, messages)
  {
    var whole := View(s, Actor(s, step));
    StepPutsMoved(s, step, s');
    MovedAgrees(s, step, own, whole, own.channel);
    messages := Moved(whole, s, step).channel;
    hide Moved, Broadcast, Apply, Enabled;
  }

  /** And every other session's object, once it looks at the shared registry again, goes on seeing its own
      share: the step touched neither its tables nor its futures. */
  lemma StepSparesOthers(s: State, step: Step, s': State, own: Local, j: nat, other: Local)
    requires Next(s, step, s') && Performed(step) && Sees(own, View(s, Actor(s, step)), own.channel)
    requires j < |s.sessions| && j != Actor(s, step) && Sees(other, View(s, j), other.channel)
    requires own.futures.Keys !! other.futures.Keys
    requires step.ListenStep? ==> step.token !in other.futures
    ensures |s'.sessions| == |s.sessions| && View(s', j).Closed()
    ensures Sees(other.(registry := s'.registry), View(s', j), other.channel)
  {
    var whole := View(s, Actor(s, step));
    StepPutsMoved(s, step, s');
    MovedAgrees(s, step, own, whole, own.channel);
    hide Moved, Broadcast, Apply, Enabled;
    forall t | t in other.futures ensures t in s'.futures && s'.futures[t] == other.futures[t] {
      assert t in whole.futures && t !in own.futures;
    }
  }

  /** Publishing aside, each Redis command of the coordinator is the command of the finer protocol. */
  lemma CommandsAgree(l: Local, t: TokenSafety.State, p: nat, sid: nat, key: ListenerKey, uuid: Token, token: Token)
    requires l.registry == t.registry && uuid !in t.minted
    ensures TokenSafety.Step(t, TokenSafety.SetNx(p, sid, key, uuid)).registry == Register(l, key, uuid).0.registry
    ensures TokenSafety.Step(t, TokenSafety.LuaUnregister(p, key, token)).registry == Unregister(l, key, token).registry
    ensures var after := TokenSafety.Step(t, TokenSafety.GetDel(p, key));
            && after.registry == Invalidate(l, key).registry
            && (key in l.registry ==> Signal(key, l.registry[key]) in after.unpublished)
            && Invalidate(l, key).channel
               == l.channel + if key in l.registry then [Signal(key, l.registry[key])] else []
  {
    hide DropEntry;
  }

  lemma StopAgrees(l: Local, t: TokenSafety.State, sid: nat)
    requires l.registry == t.registry
    requires forall k :: k in l.owned ==> l.owned[k] in t.minted && t.minted[l.owned[k]].sid == sid
    ensures TokenSafety.Step(t, TokenSafety.LuaBulkUnregister(sid, l.owned)).registry == StopCoordinator(l).registry
  {
  }
}
