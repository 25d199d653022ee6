/** Any number of sessions sharing one registry, with cancel signals that travel asynchronously.
    One critical section under a chat lock is one step; future completions outside the lock
    (timeouts, task cancellation, done-callbacks) are steps of their own. */
module ListenerProtocol {
  import opened Wrappers
  import opened ListenerKeys
  import opened ListenerSteps

  /** Where a `listen` call is: suspended on its future, between clean-up and unregistration, or over. */
  datatype Phase = Waiting | Leaving | Finished

  /** A `listen` call that registered; its token names it and its future. */
  datatype Call = Call(sid: nat, key: ListenerKey, phase: Phase)

  datatype Session = Session(listeners: map<ListenerKey, Token>, owned: map<ListenerKey, Token>)

  /** A cancel signal on its way to one session. */
  datatype InFlight = InFlight(sid: nat, key: ListenerKey, token: Token)

  datatype Delivery = Delivery(sid: nat, key: ListenerKey, token: Token, update: Update)

  datatype State = State(
    registry: Registry,
    sessions: seq<Session>,
    calls: map<Token, Call>,
    futures: map<Token, Future>,
    signals: set<InFlight>,
    log: seq<Delivery>)

  datatype Step =
    | ListenStep(i: nat, key: ListenerKey, policy: DuplicatePolicy, token: Token)
    | ResolveStep(i: nat, key: ListenerKey, bypass: bool, update: Update)
    | CancelStep(i: nat, key: ListenerKey, coordinator: bool, duplicate: bool, generation: Option<Token>)
    | ReceiveStep(signal: InFlight)
    | LoseStep(signal: InFlight)
    | AbortStep(token: Token)
    | CallbackStep(token: Token)
    | LeaveStep(token: Token)
    | ReleaseStep(token: Token)
    | StopStep(i: nat)

  predicate Init(s: State) {
    && s.registry == map[] && s.calls == map[] && s.futures == map[] && s.signals == {} && s.log == []
    && forall i :: 0 <= i < |s.sessions| ==> s.sessions[i] == Session(map[], map[])
  }

  // ---------------------------------------------------------------- one session's view

  function View(s: State, i: nat): Local
    requires i < |s.sessions|
  {
    Local(s.registry, s.sessions[i].listeners, s.sessions[i].owned, s.futures, [])
  }

  /** Broadcast every message published during a step to every session. */
  function Broadcast(sessions: nat, channel: seq<Signal>): set<InFlight> {
    set j, g | 0 <= j < sessions && g in channel :: InFlight(j, g.key, g.token)
  }

  function Put(s: State, i: nat, l: Local): State
    requires i < |s.sessions|
  {
    s.(registry := l.registry,
       sessions := s.sessions[i := Session(l.listeners, l.owned)],
       futures := l.futures,
       signals := s.signals + Broadcast(|s.sessions|, l.channel))
  }

  predicate Done(s: State, token: Token) {
    token in s.futures && s.futures[token] != Pending
  }

  // ---------------------------------------------------------------- steps

  ghost predicate Enabled(s: State, step: Step) {
    && (forall i :: 0 <= i < |s.sessions| ==> View(s, i).Closed())
    && match step
       case ListenStep(i, _, _, token) => i < |s.sessions| && token !in s.calls && token !in s.futures
       case ResolveStep(i, _, _, _) => i < |s.sessions|
       case CancelStep(i, _, _, _, _) => i < |s.sessions|
       case ReceiveStep(signal) => signal in s.signals && signal.sid < |s.sessions|
       case LoseStep(signal) => signal in s.signals
       case AbortStep(token) => token in s.futures && s.futures[token] == Pending
       case CallbackStep(token) => token in s.calls && s.calls[token].sid < |s.sessions| && Done(s, token)
       case LeaveStep(token) =>
         token in s.calls && s.calls[token].sid < |s.sessions| && Done(s, token) && s.calls[token].phase == Waiting
       case ReleaseStep(token) =>
         token in s.calls && s.calls[token].sid < |s.sessions| && s.calls[token].phase == Leaving
       case StopStep(i) => i < |s.sessions|
  }

  function SetPhase(s: State, token: Token, phase: Phase): State
    requires token in s.calls
  {
    s.(calls := s.calls[token := s.calls[token].(phase := phase)])
  }

  ghost function Apply(s: State, step: Step): State
    requires Enabled(s, step)
  {
    match step
    case ListenStep(i, key, policy, token) =>
      var (l, outcome) := Listen(View(s, i), key, policy, token);
      var next := Put(s, i, l);
      if outcome.Ok? then next.(calls := s.calls[token := Call(i, key, Waiting)]) else next
    case ResolveStep(i, key, bypass, update) =>
      var (l, end) := Resolve(View(s, i), SubKeys(key, 1), bypass, update);
      var next := Put(s, i, l);
      if end.Delivered? then next.(log := s.log + [Delivery(i, end.key, end.token, update)]) else next
    case CancelStep(i, key, coordinator, duplicate, generation) =>
      Put(s, i, Cancel(View(s, i), key, coordinator, duplicate, generation).0)
    case ReceiveStep(signal) =>
      var l := Cancel(View(s, signal.sid), signal.key, false, false, Some(signal.token)).0;
      Put(s, signal.sid, l).(signals := s.signals - {signal})
    case LoseStep(signal) => s.(signals := s.signals - {signal})
    case AbortStep(token) => s.(futures := s.futures[token := Failed(Aborted)])
    case CallbackStep(token) =>
      Put(s, s.calls[token].sid, Cleanup(View(s, s.calls[token].sid), s.calls[token].key, token))
    case LeaveStep(token) =>
      SetPhase(Put(s, s.calls[token].sid, Cleanup(View(s, s.calls[token].sid), s.calls[token].key, token)),
               token, Leaving)
    case ReleaseStep(token) =>
      SetPhase(Put(s, s.calls[token].sid, Unregister(View(s, s.calls[token].sid), s.calls[token].key, token)),
               token, Finished)
    case StopStep(i) => Put(s, i, StopCoordinator(View(s, i)))
  }

  /** A step some session's method takes, rather than a completion or a loss on its own. */
  predicate Performed(step: Step) {
    !step.AbortStep? && !step.LoseStep?
  }

  ghost function Actor(s: State, step: Step): (i: nat)
    requires Enabled(s, step) && Performed(step)
    ensures i < |s.sessions|
  {
    match step
    case ListenStep(i, _, _, _) => i
    case ResolveStep(i, _, _, _) => i
    case CancelStep(i, _, _, _, _) => i
    case ReceiveStep(signal) => signal.sid
    case CallbackStep(token) => s.calls[token].sid
    case LeaveStep(token) => s.calls[token].sid
    case ReleaseStep(token) => s.calls[token].sid
    case StopStep(i) => i
  }

  /** What the method leaves of a view. */
  ghost function Moved(l: Local, s: State, step: Step): Local
    requires l.Closed() && Enabled(s, step)
  {
    match step
    case ListenStep(_, key, policy, token) => Listen(l, key, policy, token).0
    case ResolveStep(_, key, bypass, update) => Resolve(l, SubKeys(key, 1), bypass, update).0
    case CancelStep(_, key, coordinator, duplicate, generation) =>
      Cancel(l, key, coordinator, duplicate, generation).0
    case ReceiveStep(signal) => Cancel(l, signal.key, false, false, Some(signal.token)).0
    case CallbackStep(token) => Cleanup(l, s.calls[token].key, token)
    case LeaveStep(token) => Cleanup(l, s.calls[token].key, token)
    case ReleaseStep(token) => Unregister(l, s.calls[token].key, token)
    case StopStep(_) => StopCoordinator(l)
    case _ => l
  }

  ghost predicate Next(s: State, step: Step, s': State) {
    Enabled(s, step) && s' == Apply(s, step)
  }

  /** A run: states joined by steps, from an initial state. */
  ghost predicate Run(states: seq<State>, steps: seq<Step>) {
    && |states| == |steps| + 1
    && Init(states[0])
    && forall n :: 0 <= n < |steps| ==> Next(states[n], steps[n], states[n + 1])
  }

  // ---------------------------------------------------------------- the invariant

  ghost predicate MintedIn(calls: map<Token, Call>, i: nat, key: ListenerKey, token: Token) {
    token in calls && calls[token].sid == i && calls[token].key == key
  }

  ghost predicate Minted(s: State, i: nat, key: ListenerKey, token: Token) {
    MintedIn(s.calls, i, key, token)
  }

  ghost predicate CallsInv(s: State) {
    && s.calls.Keys == s.futures.Keys
    && forall t :: t in s.calls ==> s.calls[t].sid < |s.sessions|
  }

  /** Registry entries are unfinished calls recorded by the session that minted them. */
  ghost predicate RegistryInv(s: State) {
    forall k :: k in s.registry ==>
      var t := s.registry[k];
      && t in s.calls && s.calls[t].key == k && s.calls[t].phase != Finished
      && s.calls[t].sid < |s.sessions|
      && Lookup(s.sessions[s.calls[t].sid].owned, k) == Some(t)
  }

  /** A recorded registration is an unfinished call of the session that records it. */
  ghost predicate OwnedInv(s: State, i: nat, owned: map<ListenerKey, Token>) {
    forall k :: k in owned ==> Minted(s, i, k, owned[k]) && s.calls[owned[k]].phase != Finished
  }

  /** A stored listener belongs to a suspended call of its own session, under its own key. */
  ghost predicate ListenersInv(s: State, i: nat, listeners: map<ListenerKey, Token>) {
    forall k :: k in listeners ==> Minted(s, i, k, listeners[k]) && s.calls[listeners[k]].phase == Waiting
  }

  ghost predicate SessionInv(s: State, i: nat)
    requires i < |s.sessions|
  {
    OwnedInv(s, i, s.sessions[i].owned) && ListenersInv(s, i, s.sessions[i].listeners)
  }

  /** A pending future is suspended on and stored in its own session under its own key and token. */
  ghost predicate Stored(s: State, t: Token)
    requires t in s.calls
  {
    && s.calls[t].phase == Waiting
    && s.calls[t].sid < |s.sessions|
    && Lookup(s.sessions[s.calls[t].sid].listeners, s.calls[t].key) == Some(t)
  }

  ghost predicate PendingInv(s: State) {
    forall t :: t in s.calls && t in s.futures && s.futures[t] == Pending ==> Stored(s, t)
  }

  /** A signal names an invalidated generation. */
  ghost predicate SignalsInv(s: State) {
    forall g :: g in s.signals ==>
      g.token in s.calls && s.calls[g.token].key == g.key && Lookup(s.registry, g.key) != Some(g.token)
  }

  ghost predicate Logged(log: seq<Delivery>, t: Token) {
    exists n :: 0 <= n < |log| && log[n].token == t
  }

  /** The log holds one delivery, by the minting session, for each resolved future and no other. */
  ghost predicate LogInv(calls: map<Token, Call>, futures: map<Token, Future>, log: seq<Delivery>) {
    && (forall n :: 0 <= n < |log| ==>
          && MintedIn(calls, log[n].sid, log[n].key, log[n].token)
          && log[n].token in futures
          && futures[log[n].token] == Resolved(log[n].update))
    && (forall m, n :: 0 <= m < n < |log| ==> log[m].token != log[n].token)
    && (forall t :: t in futures && futures[t].Resolved? ==> Logged(log, t))
  }

  ghost predicate Inv(s: State) {
    && CallsInv(s) && RegistryInv(s)
    && (forall i :: 0 <= i < |s.sessions| ==> SessionInv(s, i))
    && PendingInv(s) && SignalsInv(s) && LogInv(s.calls, s.futures, s.log)
  }

  // ---------------------------------------------------------------- in the middle of a step

  function OwnedBy(s: State, i: nat, owned: map<ListenerKey, Token>, sid: nat): map<ListenerKey, Token>
    requires sid < |s.sessions|
  {
    if sid == i then owned else s.sessions[sid].owned
  }

  function ListenersOf(s: State, i: nat, listeners: map<ListenerKey, Token>, sid: nat)
    : map<ListenerKey, Token>
    requires sid < |s.sessions|
  {
    if sid == i then listeners else s.sessions[sid].listeners
  }

  ghost predicate Dead(s: State, registry: Registry, key: ListenerKey, token: Token) {
    token in s.calls && s.calls[token].key == key && Lookup(registry, key) != Some(token)
  }

  ghost predicate TablesMid(s: State, i: nat, l: Local) {
    && i < |s.sessions|
    && l.futures.Keys == s.calls.Keys
    && (forall t :: t in s.calls ==> s.calls[t].sid < |s.sessions|)
    && OwnedInv(s, i, l.owned) && ListenersInv(s, i, l.listeners)
    && (forall j :: 0 <= j < |s.sessions| && j != i ==> SessionInv(s, j))
  }

  ghost predicate EntriesMid(s: State, i: nat, owned: map<ListenerKey, Token>, registry: Registry) {
    forall k :: k in registry ==>
      var t := registry[k];
      && t in s.calls && s.calls[t].key == k && s.calls[t].phase != Finished
      && s.calls[t].sid < |s.sessions|
      && Lookup(OwnedBy(s, i, owned, s.calls[t].sid), k) == Some(t)
  }

  ghost predicate SignalsMid(s: State, registry: Registry, channel: seq<Signal>) {
    && (forall g :: g in s.signals ==> Dead(s, registry, g.key, g.token))
    && (forall g :: g in channel ==> Dead(s, registry, g.key, g.token))
  }

  ghost predicate RegistryMid(s: State, i: nat, l: Local) {
    EntriesMid(s, i, l.owned, l.registry) && SignalsMid(s, l.registry, l.channel)
  }

  ghost predicate WaitersMid(s: State, i: nat, listeners: map<ListenerKey, Token>, futures: map<Token, Future>) {
    forall t :: t in s.calls && t in futures && futures[t] == Pending ==>
      && s.calls[t].phase == Waiting
      && s.calls[t].sid < |s.sessions|
      && Lookup(ListenersOf(s, i, listeners, s.calls[t].sid), s.calls[t].key) == Some(t)
  }

  ghost predicate FuturesMid(s: State, i: nat, l: Local, log: seq<Delivery>) {
    WaitersMid(s, i, l.listeners, l.futures) && LogInv(s.calls, l.futures, log)
  }

  /** The invariant with one session's view replaced by an intermediate one. */
  ghost predicate Mid(s: State, i: nat, l: Local) {
    TablesMid(s, i, l) && RegistryMid(s, i, l) && FuturesMid(s, i, l, s.log)
  }

  lemma BeginStep(s: State, i: nat)
    requires Inv(s) && i < |s.sessions|
    ensures Mid(s, i, View(s, i)) && View(s, i).Closed() && OwnTokens(View(s, i))
  {
    assert SessionInv(s, i);
    forall t | t in s.calls && s.futures[t] == Pending
      ensures Lookup(ListenersOf(s, i, s.sessions[i].listeners, s.calls[t].sid), s.calls[t].key) == Some(t)
    {
      assert Stored(s, t);
    }
  }

  lemma EndTables(s: State, i: nat, l: Local)
    requires TablesMid(s, i, l)
    ensures CallsInv(Put(s, i, l)) && forall j :: 0 <= j < |s.sessions| ==> SessionInv(Put(s, i, l), j)
  {
    hide Broadcast;
    var p := Put(s, i, l);
    assert OwnedInv(p, i, l.owned) && ListenersInv(p, i, l.listeners);
    forall j | 0 <= j < |p.sessions| ensures SessionInv(p, j) {
      if j != i { assert SessionInv(s, j); }
    }
  }

  lemma EndRegistry(s: State, i: nat, l: Local)
    requires i < |s.sessions| && RegistryMid(s, i, l)
    ensures RegistryInv(Put(s, i, l)) && SignalsInv(Put(s, i, l))
  {
    BroadcastIsDead(s, l.registry, l.channel);
    hide Broadcast;
  }

  lemma EndWaiters(s: State, i: nat, l: Local)
    requires TablesMid(s, i, l) && FuturesMid(s, i, l, s.log)
    ensures PendingInv(Put(s, i, l)) && LogInv(Put(s, i, l).calls, Put(s, i, l).futures, Put(s, i, l).log)
  {
    hide Broadcast, LogInv;
    var p := Put(s, i, l);
    forall t | t in p.calls && p.futures[t] == Pending ensures Stored(p, t) {
      assert Lookup(ListenersOf(s, i, l.listeners, s.calls[t].sid), s.calls[t].key) == Some(t);
    }
  }

  lemma EndStep(s: State, i: nat, l: Local)
    requires Mid(s, i, l)
    ensures Inv(Put(s, i, l))
  {
    EndTables(s, i, l);
    EndRegistry(s, i, l);
    EndWaiters(s, i, l);
    hide TablesMid, RegistryMid, FuturesMid, Broadcast;
    hide CallsInv, RegistryInv, SignalsInv, PendingInv, LogInv, SessionInv;
  }

  lemma BroadcastIsDead(s: State, registry: Registry, channel: seq<Signal>)
    requires SignalsMid(s, registry, channel)
    ensures forall g :: g in s.signals + Broadcast(|s.sessions|, channel) ==> Dead(s, registry, g.key, g.token)
  {
    forall g | g in Broadcast(|s.sessions|, channel) ensures Dead(s, registry, g.key, g.token) {
      var j, m :| 0 <= j < |s.sessions| && m in channel && g == InFlight(j, m.key, m.token);
      assert Dead(s, registry, m.key, m.token);
    }
  }

  lemma InitInv(s: State)
    requires Init(s)
    ensures Inv(s)
  {
  }

  // ---------------------------------------------------------------- the coordinator keeps it

  /** Deleting an entry, and forgetting the record of it. */
  lemma DeleteKeepsEntries(s: State, i: nat, owned: map<ListenerKey, Token>, registry: Registry,
                           key: ListenerKey)
    requires EntriesMid(s, i, owned, registry)
    ensures EntriesMid(s, i, owned - {key}, registry - {key})
  {
    forall k | k in registry - {key}
      ensures Lookup(OwnedBy(s, i, owned - {key}, s.calls[registry[k]].sid), k) == Some(registry[k])
    {
    }
  }

  lemma PublishKeepsSignals(s: State, i: nat, owned: map<ListenerKey, Token>, registry: Registry,
                            channel: seq<Signal>, key: ListenerKey)
    requires EntriesMid(s, i, owned, registry) && SignalsMid(s, registry, channel) && key in registry
    ensures SignalsMid(s, registry - {key}, channel + [Signal(key, registry[key])])
  {
  }

  lemma ForgetKeepsTables(s: State, i: nat, l: Local, key: ListenerKey)
    requires TablesMid(s, i, l)
    ensures TablesMid(s, i, l.(owned := l.owned - {key}))
  {
    hide SessionInv, ListenersInv;
  }

  lemma InvalidateKeeps(s: State, i: nat, l: Local, key: ListenerKey)
    requires Mid(s, i, l)
    ensures Mid(s, i, Invalidate(l, key))
  {
    hide EntriesMid, SignalsMid, WaitersMid, LogInv, SessionInv, OwnedInv, ListenersInv;
    ForgetKeepsTables(s, i, l, key);
    DeleteKeepsEntries(s, i, l.owned, l.registry, key);
    if key in l.registry {
      PublishKeepsSignals(s, i, l.owned, l.registry, l.channel, key);
    } else {
      assert l.registry - {key} == l.registry;
    }
  }

  // ---------------------------------------------------------------- the listener keeps it

  /** Failing a pending future leaves the log as it is. */
  lemma FailKeepsLog(calls: map<Token, Call>, futures: map<Token, Future>, log: seq<Delivery>, t: Token,
                     failure: Failure)
    requires LogInv(calls, futures, log) && t in futures && futures[t] == Pending
    ensures LogInv(calls, futures[t := Failed(failure)], log)
  {
  }

  lemma FailKeeps(s: State, i: nat, l: Local, key: ListenerKey, failure: Failure)
    requires Mid(s, i, l) && key in l.listeners
    requires l.futures[l.listeners[key]] == Pending
    ensures Mid(s, i, l.(listeners := l.listeners - {key},
                         futures := l.futures[l.listeners[key] := Failed(failure)]))
  {
    var t := l.listeners[key];
    var n := l.(listeners := l.listeners - {key}, futures := l.futures[t := Failed(failure)]);
    FailKeepsLog(s.calls, l.futures, s.log, t, failure);
    hide EntriesMid, SignalsMid, LogInv, SessionInv;
    assert TablesMid(s, i, n) && RegistryMid(s, i, n);
  }

  lemma PopDoneKeeps(s: State, i: nat, l: Local, key: ListenerKey)
    requires Mid(s, i, l) && (key in l.listeners ==> l.futures[l.listeners[key]] != Pending)
    ensures Mid(s, i, l.(listeners := l.listeners - {key}))
  {
    hide EntriesMid, SignalsMid, LogInv, SessionInv;
    var n := l.(listeners := l.listeners - {key});
    assert TablesMid(s, i, n) && RegistryMid(s, i, n);
  }

  lemma CancelKeeps(s: State, i: nat, l: Local, key: ListenerKey, coordinator: bool, duplicate: bool,
                    generation: Option<Token>)
    requires Mid(s, i, l) && l.Closed()
    ensures Mid(s, i, Cancel(l, key, coordinator, duplicate, generation).0)
  {
    hide Mid, Invalidate;
    if key in l.listeners && (generation.None? || generation.value == l.listeners[key]) {
      if l.futures[l.listeners[key]] == Pending {
        FailKeeps(s, i, l, key, ListenerCancelled(duplicate));
        InvalidateKeeps(s, i, l.(listeners := l.listeners - {key},
          futures := l.futures[l.listeners[key] := Failed(ListenerCancelled(duplicate))]), key);
      } else {
        PopDoneKeeps(s, i, l, key);
      }
    } else {
      InvalidateKeeps(s, i, l, key);
    }
  }

  lemma CleanupKeeps(s: State, i: nat, l: Local, key: ListenerKey, token: Token)
    requires Mid(s, i, l) && token in l.futures && l.futures[token] != Pending
    ensures Mid(s, i, Cleanup(l, key, token))
    ensures Lookup(Cleanup(l, key, token).listeners, key) != Some(token)
  {
    if Lookup(l.listeners, key) == Some(token) {
      PopDoneKeeps(s, i, l, key);
    } else {
      assert Cleanup(l, key, token) == l;
    }
  }

  // ---------------------------------------------------------------- delivery

  /** Handing the update over appends one delivery. */
  lemma ResolveKeepsLog(calls: map<Token, Call>, futures: map<Token, Future>, log: seq<Delivery>,
                        d: Delivery)
    requires LogInv(calls, futures, log) && d.token in futures && futures[d.token] == Pending
    requires MintedIn(calls, d.sid, d.key, d.token)
    ensures LogInv(calls, futures[d.token := Resolved(d.update)], log + [d])
  {
    var next, longer := futures[d.token := Resolved(d.update)], log + [d];
    forall t | t in next && next[t].Resolved? ensures Logged(longer, t) {
      if t == d.token {
        assert longer[|log|].token == t;
      } else {
        assert Logged(log, t);
        var n :| 0 <= n < |log| && log[n].token == t;
        assert longer[n].token == t;
      }
    }
  }

  function LogAfter(s: State, i: nat, end: Resolution, update: Update): seq<Delivery> {
    if end.Delivered? then s.log + [Delivery(i, end.key, end.token, update)] else s.log
  }

  /** The invariant in the middle of a `resolve` step, with the log it will leave. */
  ghost predicate MidResolve(s: State, i: nat, l: Local, log: seq<Delivery>) {
    TablesMid(s, i, l) && RegistryMid(s, i, l) && FuturesMid(s, i, l, log)
  }

  /** What `resolve` delivers, it owns: stored here, registered, and pending. */
  ghost predicate Fenced(l: Local, subs: seq<ListenerKey>, end: Resolution) {
    end.Delivered? ==>
      && end.key in subs && Owns(l, end.key) && l.listeners[end.key] == end.token
      && end.token in l.futures && l.futures[end.token] == Pending
  }

  lemma DeliverKeeps(s: State, i: nat, l: Local, key: ListenerKey, update: Update)
    requires Mid(s, i, l) && key in l.listeners && l.futures[l.listeners[key]] == Pending
    ensures var t := l.listeners[key];
            MidResolve(s, i, l.(futures := l.futures[t := Resolved(update)]),
                       s.log + [Delivery(i, key, t, update)])
  {
    var t := l.listeners[key];
    ResolveKeepsLog(s.calls, l.futures, s.log, Delivery(i, key, t, update));
    hide EntriesMid, SignalsMid, LogInv, SessionInv;
  }

  /** The loop of `resolve` keeps the invariant, and delivers only what it owns. */
  lemma {:induction false} ResolveKeeps(s: State, i: nat, l: Local, subs: seq<ListenerKey>, bypass: bool,
                                        update: Update)
    requires Mid(s, i, l) && l.Closed()
    ensures var (n, end) := Resolve(l, subs, bypass, update);
            MidResolve(s, i, n, LogAfter(s, i, end, update)) && Fenced(l, subs, end)
    ensures Resolve(l, subs, bypass, update).1.Delivered? ==> 
              Resolve(l, subs, bypass, update).0.registry == l.registry
    decreases |subs|
  {
    hide TablesMid, RegistryMid, FuturesMid;
    if |subs| > 0 && subs[0] in l.listeners {
      var token := l.listeners[subs[0]];
      if !Registered(l.registry, subs[0], Some(token)) {
        CancelKeeps(s, i, l, subs[0], false, false, Some(token));
        ResolveKeeps(s, i, Cancel(l, subs[0], false, false, Some(token)).0, subs[1..], bypass, update);
      } else if bypass {
        CancelKeeps(s, i, l, subs[0], true, false, Some(token));
      } else if l.futures[token] == Pending {
        DeliverKeeps(s, i, l, subs[0], update);
      }
    } else if |subs| > 0 {
      ResolveKeeps(s, i, l, subs[1..], bypass, update);
    }
  }

  // ---------------------------------------------------------------- registration

  function WithCall(s: State, i: nat, key: ListenerKey, token: Token): State {
    s.(calls := s.calls[token := Call(i, key, Waiting)])
  }

  /** A fresh call disturbs nothing that is known of the earlier ones. */
  lemma NewCallKeepsRegistry(s: State, i: nat, l: Local, key: ListenerKey, token: Token)
    requires RegistryMid(s, i, l) && i < |s.sessions| && token !in s.calls && key !in l.registry
    ensures RegistryMid(WithCall(s, i, key, token), i,
                        l.(registry := l.registry[key := token], owned := l.owned[key := token]))
  {
    var n, owned, registry := WithCall(s, i, key, token), l.owned[key := token], l.registry[key := token];
    forall k | k in registry
      ensures registry[k] in n.calls && n.calls[registry[k]].sid < |n.sessions|
      ensures n.calls[registry[k]].key == k && n.calls[registry[k]].phase != Finished
      ensures Lookup(OwnedBy(n, i, owned, n.calls[registry[k]].sid), k) == Some(registry[k])
    {
    }
    forall g: Signal | Dead(s, l.registry, g.key, g.token) ensures Dead(n, registry, g.key, g.token) {
    }
    assert forall g :: g in s.signals ==> Dead(s, l.registry, Signal(g.key, g.token).key, g.token);
  }

  lemma NewCallKeepsTables(s: State, i: nat, l: Local, key: ListenerKey, token: Token)
    requires TablesMid(s, i, l) && token !in s.calls
    ensures TablesMid(WithCall(s, i, key, token), i,
                      l.(owned := l.owned[key := token], listeners := l.listeners[key := token],
                         futures := l.futures[token := Pending]))
  {
    var n := WithCall(s, i, key, token);
    forall j | 0 <= j < |n.sessions| && j != i ensures SessionInv(n, j) {
      assert SessionInv(s, j);
    }
  }

  lemma NewCallKeepsFutures(s: State, i: nat, l: Local, key: ListenerKey, token: Token)
    requires TablesMid(s, i, l) && FuturesMid(s, i, l, s.log)
    requires token !in s.calls && key !in l.listeners
    ensures FuturesMid(WithCall(s, i, key, token), i,
                       l.(listeners := l.listeners[key := token], futures := l.futures[token := Pending]), s.log)
  {
    var n, futures := WithCall(s, i, key, token), l.futures[token := Pending];
    forall t | t in futures && futures[t].Resolved? ensures Logged(s.log, t) {
      assert l.futures[t].Resolved?;
    }
  }

  lemma EnterKeeps(s: State, i: nat, l: Local, key: ListenerKey, token: Token)
    requires Mid(s, i, l) && l.Closed() && token !in s.calls
    requires key !in l.registry && key !in l.listeners
    ensures Mid(WithCall(s, i, key, token), i, Enter(l, key, token).0)
  {
    NewCallKeepsRegistry(s, i, l, key, token);
    NewCallKeepsTables(s, i, l, key, token);
    NewCallKeepsFutures(s, i, l, key, token);
    hide EntriesMid, SignalsMid, WaitersMid, LogInv, OwnedInv, ListenersInv, SessionInv;
  }

  /** After `_cancel` with the coordinator succeeds, the key is free here and in the registry. */
  lemma CancelFrees(l: Local, key: ListenerKey, duplicate: bool)
    requires l.Closed()
    ensures var (n, outcome) := Cancel(l, key, true, duplicate, None);
            outcome.Ok? ==> key !in n.registry && key !in n.listeners
  {
  }

  /** Entering a free key from an intermediate view ends the `listen` step. */
  lemma EnterEnds(s: State, i: nat, l: Local, key: ListenerKey, token: Token)
    requires Mid(s, i, l) && l.Closed() && token !in s.calls
    requires key !in l.registry && key !in l.listeners
    ensures Enter(l, key, token).1.Ok?
    ensures Inv(Put(s, i, Enter(l, key, token).0).(calls := s.calls[token := Call(i, key, Waiting)]))
  {
    var n, entered := WithCall(s, i, key, token), Enter(l, key, token).0;
    EnterKeeps(s, i, l, key, token);
    EndStep(n, i, entered);
    hide Inv, Mid;
    assert Put(n, i, entered) == Put(s, i, entered).(calls := s.calls[token := Call(i, key, Waiting)]);
  }

  function AfterListen(s: State, i: nat, key: ListenerKey, token: Token, l: Local, registered: bool): State
    requires i < |s.sessions|
  {
    if registered then Put(s, i, l).(calls := s.calls[token := Call(i, key, Waiting)]) else Put(s, i, l)
  }

  lemma ListenKeeps(s: State, i: nat, key: ListenerKey, policy: DuplicatePolicy, token: Token)
    requires Inv(s) && i < |s.sessions| && token !in s.calls && View(s, i).Closed()
    ensures var (l, outcome) := Listen(View(s, i), key, policy, token);
            Inv(AfterListen(s, i, key, token, l, outcome.Ok?))
  {
    hide Inv, Mid, Put;
    var l := View(s, i);
    BeginStep(s, i);
    EndStep(s, i, l);
    if key in l.registry && policy == REPLACE {
      CancelKeeps(s, i, l, key, true, true, None);
      CancelFrees(l, key, true);
      var (cleared, outcome) := Cancel(l, key, true, true, None);
      hide Cancel;
      EndStep(s, i, cleared);
      if outcome.Ok? {
        EnterEnds(s, i, cleared, key, token);
      }
    } else if key !in l.registry && key !in l.listeners {
      EnterEnds(s, i, l, key, token);
    }
  }

  // ---------------------------------------------------------------- leaving

  lemma DropKeepsEntries(s: State, i: nat, l: Local, key: ListenerKey, token: Token)
    requires EntriesMid(s, i, l.owned, l.registry)
    ensures EntriesMid(s, i, DropEntry(l.owned, key, token), DropEntry(l.registry, key, token))
  {
    var registry, owned := DropEntry(l.registry, key, token), DropEntry(l.owned, key, token);
    forall k | k in registry
      ensures Lookup(OwnedBy(s, i, owned, s.calls[registry[k]].sid), k) == Some(registry[k])
    {
      assert Lookup(OwnedBy(s, i, l.owned, s.calls[registry[k]].sid), k) == Some(registry[k]);
    }
  }

  lemma FewerEntriesKeepSignals(s: State, registry: Registry, fewer: Registry, channel: seq<Signal>)
    requires SignalsMid(s, registry, channel)
    requires forall k :: k in fewer ==> k in registry && fewer[k] == registry[k]
    ensures SignalsMid(s, fewer, channel)
  {
    forall g: Signal | Dead(s, registry, g.key, g.token) ensures Dead(s, fewer, g.key, g.token) {
    }
    assert forall g :: g in s.signals ==> Dead(s, registry, Signal(g.key, g.token).key, g.token);
  }

  lemma UnregisterKeeps(s: State, i: nat, l: Local, key: ListenerKey, token: Token)
    requires Mid(s, i, l)
    ensures Mid(s, i, Unregister(l, key, token))
  {
    DropKeepsEntries(s, i, l, key, token);
    FewerEntriesKeepSignals(s, l.registry, DropEntry(l.registry, key, token), l.channel);
    hide EntriesMid, SignalsMid, WaitersMid, LogInv, ListenersInv, SessionInv;
  }

  lemma StopKeeps(s: State, i: nat, l: Local)
    requires Mid(s, i, l)
    ensures Mid(s, i, StopCoordinator(l))
  {
    var registry := BulkUnregister(l.registry, l.owned);
    FewerEntriesKeepSignals(s, l.registry, registry, l.channel);
    forall k | k in registry
      ensures Lookup(OwnedBy(s, i, map[], s.calls[registry[k]].sid), k) == Some(registry[k])
    {
    }
    hide SignalsMid, WaitersMid, LogInv, ListenersInv, SessionInv;
  }

  /** Moving a call on touches nothing that mentions only where its token came from. */
  lemma PhaseKeepsOrigins(s: State, token: Token, phase: Phase)
    requires CallsInv(s) && SignalsInv(s) && LogInv(s.calls, s.futures, s.log) && token in s.calls
    ensures CallsInv(SetPhase(s, token, phase)) && SignalsInv(SetPhase(s, token, phase))
    ensures LogInv(SetPhase(s, token, phase).calls, s.futures, s.log)
  {
  }

  lemma PhaseKeepsPending(s: State, token: Token, phase: Phase)
    requires PendingInv(s) && token in s.calls && (Done(s, token) || s.calls[token].phase != Waiting)
    ensures PendingInv(SetPhase(s, token, phase))
  {
    var n := SetPhase(s, token, phase);
    forall t | t in n.calls && t in n.futures && n.futures[t] == Pending ensures Stored(n, t) {
      assert Stored(s, t);
    }
  }

  /** A session's tables allow a call of its own to move on: to leave once no listener is stored for it,
      to finish once it is not on record either. */
  lemma PhaseKeepsSession(s: State, token: Token, phase: Phase, i: nat)
    requires i < |s.sessions| && SessionInv(s, i) && token in s.calls && phase != Waiting
    requires s.calls[token].sid == i ==> Lookup(s.sessions[i].listeners, s.calls[token].key) != Some(token)
    requires phase == Finished && s.calls[token].sid == i ==>
               Lookup(s.sessions[i].owned, s.calls[token].key) != Some(token)
    ensures SessionInv(SetPhase(s, token, phase), i)
  {
  }

  lemma PhaseKeepsRegistry(s: State, token: Token, phase: Phase)
    requires RegistryInv(s) && token in s.calls
    requires phase == Finished ==> Lookup(s.registry, s.calls[token].key) != Some(token)
    ensures RegistryInv(SetPhase(s, token, phase))
  {
  }

  /** A call may move on once no session stores it and its future is completed. */
  lemma LeavingKeeps(s: State, token: Token)
    requires Inv(s) && token in s.calls && s.calls[token].phase == Waiting && Done(s, token)
    requires Lookup(s.sessions[s.calls[token].sid].listeners, s.calls[token].key) != Some(token)
    ensures Inv(SetPhase(s, token, Leaving))
  {
    hide CallsInv, RegistryInv, SessionInv, PendingInv, SignalsInv, LogInv;
    PhaseKeepsOrigins(s, token, Leaving);
    PhaseKeepsPending(s, token, Leaving);
    PhaseKeepsRegistry(s, token, Leaving);
    forall i | 0 <= i < |s.sessions| ensures SessionInv(SetPhase(s, token, Leaving), i) {
      PhaseKeepsSession(s, token, Leaving, i);
    }
  }

  /** A call is over once neither the registry nor the ownership record holds its token. */
  lemma FinishingKeeps(s: State, token: Token)
    requires Inv(s) && token in s.calls && s.calls[token].phase == Leaving
    requires Lookup(s.registry, s.calls[token].key) != Some(token)
    requires Lookup(s.sessions[s.calls[token].sid].owned, s.calls[token].key) != Some(token)
    ensures Inv(SetPhase(s, token, Finished))
  {
    LeavingIsUnstored(s, token);
    hide CallsInv, RegistryInv, SessionInv, PendingInv, SignalsInv, LogInv;
    PhaseKeepsOrigins(s, token, Finished);
    PhaseKeepsPending(s, token, Finished);
    PhaseKeepsRegistry(s, token, Finished);
    forall i | 0 <= i < |s.sessions| ensures SessionInv(SetPhase(s, token, Finished), i) {
      PhaseKeepsSession(s, token, Finished, i);
    }
  }

  lemma LeavingIsUnstored(s: State, token: Token)
    requires Inv(s) && token in s.calls && s.calls[token].phase == Leaving
    ensures s.calls[token].sid < |s.sessions|
    ensures Lookup(s.sessions[s.calls[token].sid].listeners, s.calls[token].key) != Some(token)
  {
    hide LogInv, SignalsInv, PendingInv, RegistryInv;
    assert SessionInv(s, s.calls[token].sid);
  }

  lemma FewerSignalsKeep(s: State, signals: set<InFlight>)
    requires Inv(s) && signals <= s.signals
    ensures Inv(s.(signals := signals))
  {
    var n := s.(signals := signals);
    forall i | 0 <= i < |n.sessions| ensures SessionInv(n, i) {
      assert SessionInv(s, i);
    }
    forall t | t in n.calls && n.futures[t] == Pending ensures Stored(n, t) {
      assert Stored(s, t);
    }
  }

  lemma AbortKeeps(s: State, token: Token)
    requires Inv(s) && token in s.futures && s.futures[token] == Pending
    ensures Inv(s.(futures := s.futures[token := Failed(Aborted)]))
  {
    var n := s.(futures := s.futures[token := Failed(Aborted)]);
    FailKeepsLog(s.calls, s.futures, s.log, token, Aborted);
    forall i | 0 <= i < |n.sessions| ensures SessionInv(n, i) {
      assert SessionInv(s, i);
    }
    forall t | t in n.calls && n.futures[t] == Pending ensures Stored(n, t) {
      assert Stored(s, t);
    }
  }

  // ---------------------------------------------------------------- every step, every run

  lemma LogSparesTables(s: State, i: nat, l: Local, log: seq<Delivery>)
    requires TablesMid(s, i, l)
    ensures TablesMid(s.(log := log), i, l)
  {
    var n := s.(log := log);
    forall j | 0 <= j < |n.sessions| && j != i ensures SessionInv(n, j) {
      assert SessionInv(s, j);
    }
  }

  lemma LogSparesSignals(s: State, registry: Registry, channel: seq<Signal>, log: seq<Delivery>)
    requires SignalsMid(s, registry, channel)
    ensures SignalsMid(s.(log := log), registry, channel)
  {
    forall key: ListenerKey, token | Dead(s, registry, key, token) ensures Dead(s.(log := log), registry, key, token) {
    }
  }

  /** The log plays no part in the middle of a step but for the futures it accounts for. */
  lemma LogMeansNothing(s: State, i: nat, l: Local, log: seq<Delivery>)
    requires MidResolve(s, i, l, log)
    ensures Mid(s.(log := log), i, l)
  {
    LogSparesTables(s, i, l, log);
    LogSparesSignals(s, l.registry, l.channel, log);
    hide TablesMid, SignalsMid, LogInv;
  }

  lemma LogEnds(s: State, i: nat, l: Local, log: seq<Delivery>)
    requires MidResolve(s, i, l, log)
    ensures Inv(Put(s, i, l).(log := log))
  {
    var n := s.(log := log);
    LogMeansNothing(s, i, l, log);
    hide Inv, RegistryMid, FuturesMid;
    EndStep(n, i, l);
    assert Put(n, i, l) == Put(s, i, l).(log := log);
  }

  lemma ResolveStepKeeps(s: State, i: nat, key: ListenerKey, bypass: bool, update: Update)
    requires Inv(s) && i < |s.sessions| && View(s, i).Closed()
    ensures var (l, end) := Resolve(View(s, i), SubKeys(key, 1), bypass, update);
            Inv(Put(s, i, l).(log := LogAfter(s, i, end, update)))
  {
    hide Inv, TablesMid, RegistryMid, FuturesMid, Resolve, Put;
    BeginStep(s, i);
    ResolveKeeps(s, i, View(s, i), SubKeys(key, 1), bypass, update);
    var (l, end) := Resolve(View(s, i), SubKeys(key, 1), bypass, update);
    LogEnds(s, i, l, LogAfter(s, i, end, update));
  }

  lemma CleanupStepKeeps(s: State, token: Token)
    requires Inv(s) && token in s.calls && Done(s, token)
    ensures var i, key := s.calls[token].sid, s.calls[token].key;
            var n := Put(s, i, Cleanup(View(s, i), key, token));
            Inv(n) && Lookup(n.sessions[i].listeners, key) != Some(token)
  {
    var i, key := s.calls[token].sid, s.calls[token].key;
    BeginStep(s, i);
    CleanupKeeps(s, i, View(s, i), key, token);
    EndStep(s, i, Cleanup(View(s, i), key, token));
  }

  lemma ReleaseStepKeeps(s: State, token: Token)
    requires Inv(s) && token in s.calls && s.calls[token].phase == Leaving
    ensures var i, key := s.calls[token].sid, s.calls[token].key;
            Inv(SetPhase(Put(s, i, Unregister(View(s, i), key, token)), token, Finished))
  {
    var i, key := s.calls[token].sid, s.calls[token].key;
    BeginStep(s, i);
    UnregisterKeeps(s, i, View(s, i), key, token);
    EndStep(s, i, Unregister(View(s, i), key, token));
    FinishingKeeps(Put(s, i, Unregister(View(s, i), key, token)), token);
  }

  lemma NextKeeps(s: State, step: Step, s': State)
    requires Inv(s) && Next(s, step, s')
    ensures Inv(s')
  {
    match step
    case ListenStep(i, key, policy, token) =>
      ListenKeeps(s, i, key, policy, token);
      hide Inv, Listen;
      assert s' == AfterListen(s, i, key, token, Listen(View(s, i), key, policy, token).0,
                               Listen(View(s, i), key, policy, token).1.Ok?);
    case ResolveStep(i, key, bypass, update) =>
      ResolveStepKeeps(s, i, key, bypass, update);
      hide Inv, Resolve;
      var (l, end) := Resolve(View(s, i), SubKeys(key, 1), bypass, update);
      assert s' == Put(s, i, l).(log := LogAfter(s, i, end, update));
    case CancelStep(i, key, coordinator, duplicate, generation) =>
      BeginStep(s, i);
      CancelKeeps(s, i, View(s, i), key, coordinator, duplicate, generation);
      EndStep(s, i, Cancel(View(s, i), key, coordinator, duplicate, generation).0);
    case ReceiveStep(signal) =>
      var i, l := signal.sid, Cancel(View(s, signal.sid), signal.key, false, false, Some(signal.token)).0;
      BeginStep(s, i);
      CancelKeeps(s, i, View(s, i), signal.key, false, false, Some(signal.token));
      EndStep(s, i, l);
      FewerSignalsKeep(Put(s, i, l), s.signals - {signal});
    case LoseStep(signal) => FewerSignalsKeep(s, s.signals - {signal});
    case AbortStep(token) => AbortKeeps(s, token);
    case CallbackStep(token) => CleanupStepKeeps(s, token);
    case LeaveStep(token) =>
      var i := s.calls[token].sid;
      CleanupStepKeeps(s, token);
      LeavingKeeps(Put(s, i, Cleanup(View(s, i), s.calls[token].key, token)), token);
    case ReleaseStep(token) => ReleaseStepKeeps(s, token);
    case StopStep(i) =>
      BeginStep(s, i);
      StopKeeps(s, i, View(s, i));
      EndStep(s, i, StopCoordinator(View(s, i)));
  }

  lemma {:induction false} RunKeeps(states: seq<State>, steps: seq<Step>, n: nat)
    requires Run(states, steps) && n < |states|
    ensures Inv(states[n])
  {
    if n == 0 {
      InitInv(states[0]);
    } else {
      RunKeeps(states, steps, n - 1);
      assert Next(states[n - 1], steps[n - 1], states[n - 1 + 1]);
      NextKeeps(states[n - 1], steps[n - 1], states[n]);
    }
  }
}
