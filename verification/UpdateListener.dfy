/** pyroflow/update_listener/update_listener.py: the critical sections of one session's listener,
    each proved to be the corresponding step function on what the session sees. */
module UpdateListeners {
  import opened Wrappers
  import opened ListenerKeys
  import opened ListenerSteps
  import opened RedisListenerCoordinators

  /** An `asyncio.Future`. */
  class FutureCell {
    var status: Future

    constructor ()
      ensures status == Pending
    {
      status := Pending;
    }

    /** `set_result` / `set_exception`; false where the source raises `InvalidStateError`. */
    method Complete(outcome: Future) returns (ok: bool)
      modifies this
      ensures ok <==> old(status) == Pending
      ensures status == if ok then outcome else old(status)
    {
      ok := status == Pending;
      if ok {
        status := outcome;
      }
    }
  }

  /** A stored listener. Its token is written once, before it is stored. */
  datatype ListenerModel = ListenerModel(key: ListenerKey, future: FutureCell, coordinatorId: Token)

  /** What a `resolve` call does: nothing at all on an empty table, or one critical section. */
  datatype ResolveResult = Skipped | Ended(resolution: Resolution)

  class UpdateListener {
    const coordinator: RedisListenerCoordinator
    const duplicatePolicy: DuplicatePolicy
    var listeners: map<ListenerKey, ListenerModel>

    // Every future this session created, under the token it was registered with.
    ghost var futures: map<Token, FutureCell>

    ghost predicate Valid()
      reads this
    {
      && (forall k :: k in listeners ==>
            && listeners[k].key == k
            && listeners[k].coordinatorId in futures
            && futures[listeners[k].coordinatorId] == listeners[k].future)
      && (forall s, t :: s in futures && t in futures && futures[s] == futures[t] ==> s == t)
      && (forall j, k ::
            j in listeners && k in listeners && listeners[j].coordinatorId == listeners[k].coordinatorId ==> j == k)
    }

    ghost function Tokens(): map<ListenerKey, Token>
      reads this
    {
      map k | k in listeners :: listeners[k].coordinatorId
    }

    ghost function Statuses(): map<Token, Future>
      reads this, futures.Values
    {
      map t | t in futures :: futures[t].status
    }

    /** This session's view of the world, as the step functions see it. */
    ghost function Seen(): (l: Local)
      requires Valid()
      reads this, coordinator, coordinator.redis, futures.Values
      ensures l.Closed()
    {
      Local(coordinator.redis.registry, Tokens(), coordinator.ownedRegistrations, Statuses(),
            coordinator.redis.channel)
    }

    constructor (coordinator: RedisListenerCoordinator, duplicatePolicy: DuplicatePolicy)
      ensures Valid() && listeners == map[] && futures == map[]
      ensures this.coordinator == coordinator && this.duplicatePolicy == duplicatePolicy
    {
      this.coordinator, this.duplicatePolicy := coordinator, duplicatePolicy;
      listeners, futures := map[], map[];
    }

    /** Pop a listener and fail its future; false where that future was already completed. */
    method Fail(key: ListenerKey, isDuplicate: bool) returns (ok: bool)
      requires Valid() && key in listeners
      modifies this`listeners, futures.Values
      ensures Valid()
      ensures var was, token := old(Seen()), old(listeners[key].coordinatorId);
              && ok == (was.futures[token] == Pending)
              && Seen() == was.(listeners := was.listeners - {key},
                                futures := if ok then was.futures[token := Failed(ListenerCancelled(isDuplicate))]
                                           else was.futures)
    {
      var listener := listeners[key];
      listeners := listeners - {key};
      ok := listener.future.Complete(Failed(ListenerCancelled(isDuplicate)));
      assert Tokens() == old(Tokens()) - {key};
      assert Statuses() == if ok then old(Statuses())[listener.coordinatorId := Failed(ListenerCancelled(isDuplicate))]
                           else old(Statuses());
    }

    /** The coordinator's `cancel`, as this session sees it. */
    method Withdraw(key: ListenerKey)
      requires Valid()
      modifies coordinator, coordinator.redis
      ensures Valid()
      ensures Seen() == Invalidate(old(Seen()), key)
    {
      var _ := coordinator.Cancel(key);
      assert Statuses() == old(Statuses()) && Tokens() == old(Tokens());
    }

    /** `_cancel` */
    method Cancel(key: ListenerKey, cancelCoordinator: bool, isDuplicate: bool, coordinatorId: Option<Token>)
      returns (r: Result<bool, ListenError>)
      requires Valid()
      modifies this`listeners, coordinator, coordinator.redis, futures.Values
      ensures Valid()
      ensures (Seen(), r) == ListenerSteps.Cancel(old(Seen()), key, cancelCoordinator, isDuplicate, coordinatorId)
    {
      hide Invalidate;
      if key in listeners {
        var listener := listeners[key];
        if coordinatorId.Some? && listener.coordinatorId != coordinatorId.value {
          return Ok(false);
        }
        var ok := Fail(key, isDuplicate);
        if !ok {
          return Err(InvalidState);
        }
      }
      if cancelCoordinator {
        Withdraw(key);
      }
      return Ok(true);
    }

    /** `_cleanup_listen`: by identity of the future, not by key. */
    method CleanupListen(key: ListenerKey, f: FutureCell, ghost token: Token)
      requires Valid() && token in futures && futures[token] == f
      modifies this`listeners
      ensures Valid()
      ensures Seen() == Cleanup(old(Seen()), key, token)
    {
      if key in listeners && listeners[key].future == f {
        listeners := listeners - {key};
        assert Tokens() == old(Tokens()) - {key};
      }
    }

    /** Store a listener whose future is new, under the token it was registered with. */
    method Store(listener: ListenerModel)
      requires Valid() && listener.coordinatorId !in futures && listener.future !in futures.Values
      modifies this
      ensures Valid()
      ensures futures == old(futures)[listener.coordinatorId := listener.future]
      ensures Tokens() == old(Tokens())[listener.key := listener.coordinatorId]
      ensures Statuses() == old(Statuses())[listener.coordinatorId := listener.future.status]
    {
      assert forall t :: t in futures ==> futures[t] != listener.future;
      assert forall k :: k in listeners ==> listeners[k].coordinatorId != listener.coordinatorId;
      listeners := listeners[listener.key := listener];
      futures := futures[listener.coordinatorId := listener.future];
    }

    /** Create the future, take the registration, store the listener. */
    method Enter(key: ListenerKey, uuid: Token) returns (r: Result<FutureCell, ListenError>)
      requires Valid() && uuid !in futures
      modifies this, coordinator, coordinator.redis
      ensures Valid()
      ensures var (after, outcome) := ListenerSteps.Enter(old(Seen()), key, uuid);
              Seen() == after && r.Ok? == outcome.Ok? && (r.Err? ==> outcome == Err(r.error))
      ensures futures == if r.Ok? then old(futures)[uuid := r.value] else old(futures)
      ensures r.Ok? ==> fresh(r.value)
    {
      var fut := new FutureCell();
      var registered := coordinator.Register(key, uuid);
      assert Statuses() == old(Statuses()) && Tokens() == old(Tokens());
      if registered.Err? {
        return Err(registered.error);
      }
      Store(ListenerModel(key, fut, registered.value));
      return Ok(fut);
    }

    /** The critical section at the start of `listen`. */
    method Register(key: ListenerKey, uuid: Token) returns (r: Result<FutureCell, ListenError>)
      requires Valid() && uuid !in futures
      modifies this, coordinator, coordinator.redis, futures.Values
      ensures Valid()
      ensures var (after, outcome) := Listen(old(Seen()), key, duplicatePolicy, uuid);
              Seen() == after && r.Ok? == outcome.Ok? && (r.Err? ==> outcome == Err(r.error))
      ensures futures == if r.Ok? then old(futures)[uuid := r.value] else old(futures)
      ensures r.Ok? ==> fresh(r.value)
    {
      hide ListenerSteps.Enter, ListenerSteps.Cancel;
      var taken := coordinator.Registered(key, None);
      if taken {
        match duplicatePolicy {
          case REJECT => return Err(AlreadyExists);
          case REPLACE =>
            var cancelled := Cancel(key, true, true, None);
            if cancelled.Err? {
              return Err(cancelled.error);
            }
        }
      } else if key in listeners {
        return Err(OutOfSync);
      }
      r := Enter(key, uuid);
    }

    /** The `finally` clause of `listen`: clean up, then give the registration back by token. */
    method Finish(key: ListenerKey, f: FutureCell, coordinatorId: Token)
      requires Valid() && coordinatorId in futures && futures[coordinatorId] == f
      modifies this`listeners, coordinator, coordinator.redis
      ensures Valid()
      ensures Seen() == ListenerSteps.Unregister(Cleanup(old(Seen()), key, coordinatorId), key, coordinatorId)
    {
      CleanupListen(key, f, coordinatorId);
      var _ := coordinator.Unregister(key, Some(coordinatorId));
    }

    /** `listener.resolve`; false where its future was already completed. */
    method Deliver(sub: ListenerKey, update: Update) returns (ok: bool)
      requires Valid() && sub in listeners
      modifies futures.Values
      ensures Valid()
      ensures var was, token := old(Seen()), old(listeners[sub].coordinatorId);
              && ok == (was.futures[token] == Pending)
              && Seen() == was.(futures := if ok then was.futures[token := Resolved(update)] else was.futures)
    {
      var listener := listeners[sub];
      ok := listener.future.Complete(Resolved(update));
      assert Statuses() == if ok then old(Statuses())[listener.coordinatorId := Resolved(update)] else old(Statuses());
    }

    /** One candidate of `resolve`; `None` moves on to the next. */
    method TryCandidate(sub: ListenerKey, bypass: bool, update: Update) returns (end: Option<Resolution>)
      requires Valid()
      modifies this`listeners, coordinator, coordinator.redis, futures.Values
      ensures Valid()
      ensures (Seen(), end) == Try(old(Seen()), sub, bypass, update)
    {
      hide ListenerSteps.Cancel;
      if sub !in listeners {
        return None;
      }
      var listener := listeners[sub];
      var owned := coordinator.Registered(sub, Some(listener.coordinatorId));
      if !owned {
        var dropped := Cancel(sub, false, false, Some(listener.coordinatorId));
        return if dropped.Err? then Some(Broken) else None;
      }
      if bypass {
        var cancelled := Cancel(sub, true, false, Some(listener.coordinatorId));
        return Some(if cancelled.Err? then Broken else Bypassed(sub));
      }
      var ok := Deliver(sub, update);
      return Some(if ok then Delivered(sub, listener.coordinatorId) else Broken);
    }

    /** `resolve`, for a listenable update whose key and bypass decision are given. */
    method Resolve(key: ListenerKey, bypass: bool, update: Update) returns (r: ResolveResult)
      requires Valid()
      modifies this`listeners, coordinator, coordinator.redis, futures.Values
      ensures Valid()
      ensures r == Skipped <==> old(listeners) == map[]
      ensures r == Skipped ==> Seen() == old(Seen())
      ensures r.Ended? ==>
                (Seen(), r.resolution) == ListenerSteps.Resolve(old(Seen()), SubKeys(key, 1), bypass, update)
    {
      hide Try, ListenerSteps.Resolve, SubKeys, Valid;
      if listeners == map[] {
        return Skipped;
      }
      var subs := EnumerateSubKeys(key, 1);
      for i := 0 to |subs|
        invariant Valid()
        invariant ListenerSteps.Resolve(Seen(), subs[i..], bypass, update)
                  == ListenerSteps.Resolve(old(Seen()), subs, bypass, update)
      {
        ResolveUnfolds(Seen(), subs[i..], bypass, update);
        assert subs[i..][0] == subs[i] && subs[i..][1..] == subs[i + 1..];
        var end := TryCandidate(subs[i], bypass, update);
        if end.Some? {
          return Ended(end.value);
        }
      }
      ResolveUnfolds(Seen(), [], bypass, update);
      assert subs[|subs|..] == [];
      return Ended(Unresolved);
    }

    /** `list(self.listeners.keys())` */
    method ActiveKeys() returns (active: seq<ListenerKey>)
      ensures Distinct(active) && forall k :: k in active <==> k in listeners
    {
      active := [];
      var left := listeners.Keys;
      while left != {}
        invariant left <= listeners.Keys
        invariant Distinct(active) && forall k :: k in active <==> k in listeners && k !in left
        decreases left
      {
        var k :| k in left;
        left := left - {k};
        active := active + [k];
      }
    }

    /** The cancellations `stop` gathers. */
    method CancelEach(active: seq<ListenerKey>)
      requires Valid()
      modifies this`listeners, coordinator, coordinator.redis, futures.Values
      ensures Valid()
      ensures Seen() == CancelAll(old(Seen()), active)
    {
      hide ListenerSteps.Cancel;
      for i := 0 to |active|
        invariant Valid()
        invariant Seen() == CancelAll(old(Seen()), active[..i])
      {
        assert active[..i + 1][..i] == active[..i];
        var _ := Cancel(active[i], true, false, None);
      }
      assert active[..|active|] == active;
    }

    /** The coordinator's `stop`, as this session sees it. */
    method Disown()
      requires Valid()
      modifies coordinator, coordinator.redis
      ensures Valid()
      ensures Seen() == StopCoordinator(old(Seen()))
    {
      coordinator.StopRegistrations();
      assert Statuses() == old(Statuses()) && Tokens() == old(Tokens());
    }

    /** `stop`: cancel everything active, then stop the coordinator. */
    method Stop() returns (active: seq<ListenerKey>)
      requires Valid()
      modifies this`listeners, coordinator, coordinator.redis, futures.Values
      ensures Valid()
      ensures Distinct(active) && forall k :: k in active <==> k in old(listeners)
      ensures Seen() == StopCoordinator(CancelAll(old(Seen()), active))
    {
      hide CancelAll, StopCoordinator;
      active := ActiveKeys();
      CancelEach(active);
      Disown();
    }
  }

  /** One after the other, the cancellations `stop` gathers. */
  function CancelAll(l: Local, keys: seq<ListenerKey>): (r: Local)
    requires l.Closed()
    ensures r.Closed()
  {
    if |keys| == 0 then l
    else ListenerSteps.Cancel(CancelAll(l, keys[..|keys| - 1]), keys[|keys| - 1], true, false, None).0
  }

  /** What the gathered cancellations leave: no named listener, no pending future among those they
      held, and nothing they did not name touched. */
  lemma {:induction false} CancelAllMeaning(l: Local, keys: seq<ListenerKey>)
    requires l.Closed() && OwnTokens(l)
    ensures var r := CancelAll(l, keys);
            && (forall k :: k in r.listeners <==> k in l.listeners && k !in keys)
            && (forall k :: k in r.listeners ==> r.listeners[k] == l.listeners[k])
            && r.futures.Keys == l.futures.Keys
            && (forall t :: t in l.futures && HeldBy(l, t, keys) ==>
                  (r.futures[t] == if l.futures[t] == Pending then Failed(ListenerCancelled(false)) else l.futures[t]))
            && (forall t :: t in l.futures && !HeldBy(l, t, keys) ==> r.futures[t] == l.futures[t])
    decreases |keys|
  {
    if |keys| > 0 {
      hide ListenerSteps.Cancel;
      var front, last := keys[..|keys| - 1], keys[|keys| - 1];
      CancelAllMeaning(l, front);
      assert forall k :: k in keys <==> k in front || k == last;
      forall t ensures HeldBy(l, t, keys) == (HeldBy(l, t, front) || Lookup(l.listeners, last) == Some(t)) {
        if HeldBy(l, t, keys) {
          var k :| k in keys && k in l.listeners && l.listeners[k] == t;
          assert k in front || k == last;
        }
      }
      CancelOne(CancelAll(l, front), last);
    }
  }

  /** Cancelling this key gets as far as the coordinator. */
  predicate Told(l: Local, key: ListenerKey)
    requires l.Closed()
  {
    key in l.listeners ==> l.futures[l.listeners[key]] == Pending
  }

  /** The coordinator gives up the registration of every named key, whoever holds it, except where the listener
      was already completed. */
  lemma {:induction false} CancelAllWithdraws(l: Local, keys: seq<ListenerKey>, k: ListenerKey)
    requires l.Closed() && OwnTokens(l) && Distinct(keys)
    ensures var r := CancelAll(l, keys);
            && Lookup(r.registry, k) == (if k in keys && Told(l, k) then None else Lookup(l.registry, k))
            && Lookup(r.owned, k) == (if k in keys && Told(l, k) then None else Lookup(l.owned, k))
    decreases |keys|
  {
    if |keys| > 0 {
      hide ListenerSteps.Cancel, Told;
      var front, last := keys[..|keys| - 1], keys[|keys| - 1];
      CancelAllWithdraws(l, front, k);
      assert keys == front + [last] && last !in front;
      StillTold(l, front, last);
      WithdrawOne(CancelAll(l, front), last);
    }
  }

  /** Each registration given up is announced by its token, and nothing else is. */
  lemma {:induction false} CancelAllAnnounces(l: Local, keys: seq<ListenerKey>)
    requires l.Closed() && OwnTokens(l) && Distinct(keys)
    ensures forall g :: g in CancelAll(l, keys).channel <==>
              g in l.channel || (g.key in keys && Told(l, g.key) && Lookup(l.registry, g.key) == Some(g.token))
    decreases |keys|
  {
    if |keys| > 0 {
      hide ListenerSteps.Cancel, Told;
      var front, last := keys[..|keys| - 1], keys[|keys| - 1];
      CancelAllAnnounces(l, front);
      assert keys == front + [last] && last !in front;
      StillTold(l, front, last);
      WithdrawOne(CancelAll(l, front), last);
      assert Lookup(CancelAll(l, front).registry, last) == Lookup(l.registry, last) by {
        CancelAllWithdraws(l, front, last);
      }
      hide OwnTokens;
    }
  }

  /** Cancelling other keys makes no difference to that. */
  lemma StillTold(l: Local, front: seq<ListenerKey>, key: ListenerKey)
    requires l.Closed() && OwnTokens(l) && key !in front
    ensures Told(CancelAll(l, front), key) == Told(l, key)
  {
    hide CancelAll;
    CancelAllMeaning(l, front);
    if key in l.listeners {
      assert !HeldBy(l, l.listeners[key], front);
    }
  }

  lemma WithdrawOne(l: Local, key: ListenerKey)
    requires l.Closed()
    ensures var r := ListenerSteps.Cancel(l, key, true, false, None).0;
            && r.registry == (if Told(l, key) then l.registry - {key} else l.registry)
            && r.owned == (if Told(l, key) then l.owned - {key} else l.owned)
            && r.channel == l.channel + (if Told(l, key) && key in l.registry
                                         then [Signal(key, l.registry[key])] else [])
  {
    hide ListenerSteps.Cancel;
    CancelExactly(l, key, true, false, None);
  }

  lemma CancelOne(l: Local, key: ListenerKey)
    requires l.Closed()
    ensures var r := ListenerSteps.Cancel(l, key, true, false, None).0;
            && r.listeners == l.listeners - {key}
            && r.futures == (if key in l.listeners && l.futures[l.listeners[key]] == Pending
                             then l.futures[l.listeners[key] := Failed(ListenerCancelled(false))] else l.futures)
  {
  }
}
