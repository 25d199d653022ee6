/** What one session does inside one critical section under a chat lock, as functions on the
    part of the world it can see (pyroflow/update_listener/update_listener.py over
    pyroflow/listener_coordinator/redis_listener_coordinator.py). */
module ListenerSteps {
  import opened Wrappers
  import opened ListenerKeys

  /** The generation a registration was handed; also names the future created with it. */
  type Token = nat

  type Registry = map<ListenerKey, Token>

  datatype Update = Update(id: int)

  datatype Failure = ListenerCancelled(isDuplicate: bool) | Aborted

  datatype Future = Pending | Resolved(update: Update) | Failed(failure: Failure)

  /** A published cancel message: the key and the token that was invalidated. */
  datatype Signal = Signal(key: ListenerKey, token: Token)

  datatype DuplicatePolicy = REJECT | REPLACE

  datatype ListenError = AlreadyExists | OutOfSync | InvalidState | KeyTaken

  /** The registry, this session's own tables, the futures, and what was published meanwhile. */
  datatype Local = Local(
    registry: Registry,
    listeners: map<ListenerKey, Token>,
    owned: map<ListenerKey, Token>,
    futures: map<Token, Future>,
    channel: seq<Signal>)
  {
    ghost predicate Closed() {
      forall k :: k in listeners ==> listeners[k] in futures
    }
  }

  // ---------------------------------------------------------------- the coordinator

  function Registered(registry: Registry, key: ListenerKey, token: Option<Token>): bool {
    key in registry && (token.None? || registry[key] == token.value)
  }

  /** `SET NX`, then the ownership record. */
  function Register(l: Local, key: ListenerKey, uuid: Token): (Local, bool) {
    if key in l.registry then (l, false)
    else (l.(registry := l.registry[key := uuid], owned := l.owned[key := uuid]), true)
  }

  function DropEntry(m: map<ListenerKey, Token>, key: ListenerKey, token: Token): map<ListenerKey, Token> {
    if Lookup(m, key) == Some(token) then m - {key} else m
  }

  /** The token-guarded `unregister`. */
  function Unregister(l: Local, key: ListenerKey, token: Token): Local {
    l.(registry := DropEntry(l.registry, key, token), owned := DropEntry(l.owned, key, token))
  }

  /** The coordinator's `cancel`: forget, read-and-delete, publish what was deleted. */
  function Invalidate(l: Local, key: ListenerKey): Local {
    var forgotten := l.(owned := l.owned - {key});
    if key in l.registry then
      forgotten.(registry := l.registry - {key}, channel := l.channel + [Signal(key, l.registry[key])])
    else forgotten
  }

  /** The compare-and-delete of every recorded registration, at `stop`. */
  function BulkUnregister(registry: Registry, owned: map<ListenerKey, Token>): Registry {
    map k | k in registry && Lookup(owned, k) != Some(registry[k]) :: registry[k]
  }

  function StopCoordinator(l: Local): Local {
    l.(registry := BulkUnregister(l.registry, l.owned), owned := map[])
  }

  // ---------------------------------------------------------------- the listener

  /** `_cancel`. `Ok(false)` is a stale call; `Err` is `set_exception` on a completed future,
      which escapes after the pop and before the coordinator is told. */
  function Cancel(l: Local, key: ListenerKey, coordinator: bool, duplicate: bool, token: Option<Token>)
    : (r: (Local, Result<bool, ListenError>))
    requires l.Closed()
    ensures r.0.Closed()
    ensures r.0.futures.Keys == l.futures.Keys
  {
    if key !in l.listeners then
      (if coordinator then Invalidate(l, key) else l, Ok(true))
    else
      var held := l.listeners[key];
      if token.Some? && held != token.value then (l, Ok(false))
      else
        var popped := l.(listeners := l.listeners - {key});
        if l.futures[held] != Pending then (popped, Err(InvalidState))
        else
          var failed := popped.(futures := l.futures[held := Failed(ListenerCancelled(duplicate))]);
          (if coordinator then Invalidate(failed, key) else failed, Ok(true))
  }

  /** `_cleanup_listen` for the future named `token`. */
  function Cleanup(l: Local, key: ListenerKey, token: Token): Local {
    l.(listeners := DropEntry(l.listeners, key, token))
  }

  /** Create the future, register, and store the listener. */
  function Enter(l: Local, key: ListenerKey, uuid: Token): (r: (Local, Result<Token, ListenError>))
    requires l.Closed()
    ensures r.0.Closed()
  {
    var (registered, success) := Register(l, key, uuid);
    if !success then (registered, Err(KeyTaken))
    else (registered.(listeners := l.listeners[key := uuid], futures := l.futures[uuid := Pending]), Ok(uuid))
  }

  /** The critical section at the start of `listen`. */
  function Listen(l: Local, key: ListenerKey, policy: DuplicatePolicy, uuid: Token)
    : (r: (Local, Result<Token, ListenError>))
    requires l.Closed()
    ensures r.0.Closed()
  {
    if Registered(l.registry, key, None) then
      match policy
      case REJECT => (l, Err(AlreadyExists))
      case REPLACE =>
        var (cleared, outcome) := Cancel(l, key, true, true, None);
        if outcome.Err? then (cleared, Err(outcome.error)) else Enter(cleared, key, uuid)
    else if key in l.listeners then (l, Err(OutOfSync))
    else Enter(l, key, uuid)
  }

  // ---------------------------------------------------------------- what the sections do, entry by entry

  /** `_cancel`: a stale call changes nothing. Otherwise the listener is gone; its future fails, unless it
      was completed, which raises before the coordinator hears of it; and the coordinator, if told, gives up
      the registration, whoever holds it, with one signal that names the very token it held. */
  lemma CancelExactly(l: Local, key: ListenerKey, coordinator: bool, duplicate: bool, token: Option<Token>)
    requires l.Closed()
    ensures var (n, answer) := Cancel(l, key, coordinator, duplicate, token);
            var stale := key in l.listeners && token.Some? && token.value != l.listeners[key];
            var raises := key in l.listeners && !stale && l.futures[l.listeners[key]] != Pending;
            var told := coordinator && !stale && !raises;
            && (answer == Ok(false) <==> stale) && (answer == Err(InvalidState) <==> raises)
            && (answer == Ok(true) <==> !stale && !raises)
            && (stale || raises ==> n == l.(listeners := if stale then l.listeners else l.listeners - {key}))
            && (!stale && !raises ==>
                  && n.listeners == l.listeners - {key}
                  && n.futures == if key in l.listeners
                                  then l.futures[l.listeners[key] := Failed(ListenerCancelled(duplicate))]
                                  else l.futures)
            && n.registry == (if told then l.registry - {key} else l.registry)
            && n.owned == (if told then l.owned - {key} else l.owned)
            && n.channel == l.channel + (if told && key in l.registry then [Signal(key, l.registry[key])] else [])
  {
    hide Invalidate;
    var without := l.(listeners := l.listeners - {key});
    if key !in l.listeners {
      WithdrawsExactly(l, key);
    } else if l.futures[l.listeners[key]] == Pending {
      WithdrawsExactly(without.(futures := l.futures[l.listeners[key] := Failed(ListenerCancelled(duplicate))]), key);
    }
  }

  /** The coordinator's `cancel` empties the key's entry and announces exactly what it held. */
  lemma WithdrawsExactly(l: Local, key: ListenerKey)
    ensures Invalidate(l, key)
            == l.(registry := l.registry - {key}, owned := l.owned - {key},
                  channel := l.channel + (if key in l.registry then [Signal(key, l.registry[key])] else []))
  {
    if key !in l.registry {
      assert l.registry - {key} == l.registry;
    }
  }

  /** A free key is registered and recorded, and a new listener waits under it. */
  lemma EntersExactly(l: Local, key: ListenerKey, uuid: Token)
    requires l.Closed() && key !in l.registry
    ensures Enter(l, key, uuid)
            == (l.(registry := l.registry[key := uuid], owned := l.owned[key := uuid],
                   listeners := l.listeners[key := uuid], futures := l.futures[uuid := Pending]), Ok(uuid))
  {
  }

  /** The entry section of `listen` under each policy. A registered key is refused under REJECT. Under REPLACE
      it changes hands: the old token is signalled and the old listener, if it was here, fails as a duplicate;
      only one that was already completed makes it raise. A free key is taken, unless a listener is left
      under it. */
  lemma ListenExactly(l: Local, key: ListenerKey, policy: DuplicatePolicy, uuid: Token)
    requires l.Closed()
    ensures var (n, outcome) := Listen(l, key, policy, uuid);
            var completed := key in l.listeners && l.futures[l.listeners[key]] != Pending;
            && (key in l.registry && policy == REJECT ==> n == l && outcome == Err(AlreadyExists))
            && (key in l.registry && policy == REPLACE && completed ==>
                  n == l.(listeners := l.listeners - {key}) && outcome == Err(InvalidState))
            && (key in l.registry && policy == REPLACE && !completed ==>
                  && outcome == Ok(uuid) && n.listeners == l.listeners[key := uuid]
                  && n.registry == l.registry[key := uuid] && n.owned == l.owned[key := uuid]
                  && n.channel == l.channel + [Signal(key, l.registry[key])]
                  && n.futures == (if key in l.listeners
                                   then l.futures[l.listeners[key] := Failed(ListenerCancelled(true))]
                                   else l.futures)[uuid := Pending])
            && (key !in l.registry && key in l.listeners ==> n == l && outcome == Err(OutOfSync))
            && (key !in l.registry && key !in l.listeners ==>
                  && outcome == Ok(uuid) && n.listeners == l.listeners[key := uuid]
                  && n.registry == l.registry[key := uuid] && n.owned == l.owned[key := uuid]
                  && n.channel == l.channel && n.futures == l.futures[uuid := Pending])
  {
    hide Cancel, Enter;
    CancelExactly(l, key, true, true, None);
    var cleared := Cancel(l, key, true, true, None).0;
    if key !in cleared.registry {
      EntersExactly(cleared, key, uuid);
    }
    if key !in l.registry {
      EntersExactly(l, key, uuid);
    }
  }

  /** The clean-up and the guarded unregistration let go of what the token stands for, and of nothing else. */
  lemma LeavesExactly(l: Local, key: ListenerKey, token: Token)
    ensures var n := Unregister(Cleanup(l, key, token), key, token);
            && (forall k :: Lookup(n.listeners, k) ==
                  if k == key && Lookup(l.listeners, k) == Some(token) then None else Lookup(l.listeners, k))
            && (forall k :: Lookup(n.registry, k) ==
                  if k == key && Lookup(l.registry, k) == Some(token) then None else Lookup(l.registry, k))
            && (forall k :: Lookup(n.owned, k) ==
                  if k == key && Lookup(l.owned, k) == Some(token) then None else Lookup(l.owned, k))
            && n.futures == l.futures && n.channel == l.channel
  {
  }

  /** The coordinator's `stop` empties exactly the entries that hold what it recorded, and then its record. */
  lemma StopsExactly(l: Local)
    ensures var n := StopCoordinator(l);
            && (forall k :: Lookup(n.registry, k) ==
                  if k in l.registry && Lookup(l.owned, k) == Lookup(l.registry, k) then None
                  else Lookup(l.registry, k))
            && n == l.(registry := n.registry, owned := map[])
  {
  }

  // ---------------------------------------------------------------- the candidate loop

  /** How the critical section of `resolve` ends. */
  datatype Resolution =
    | Delivered(key: ListenerKey, token: Token)
    | Unresolved
    | Bypassed(key: ListenerKey)
    | Broken

  /** One candidate of the `resolve` loop; `None` moves on to the next. */
  function Try(l: Local, sub: ListenerKey, bypass: bool, update: Update): (r: (Local, Option<Resolution>))
    requires l.Closed()
    ensures r.0.Closed()
    ensures r.0.futures.Keys == l.futures.Keys
  {
    if sub !in l.listeners then (l, None)
    else
      var token := l.listeners[sub];
      if !Registered(l.registry, sub, Some(token)) then
        var (dropped, outcome) := Cancel(l, sub, false, false, Some(token));
        (dropped, if outcome.Err? then Some(Broken) else None)
      else if bypass then
        var (cancelled, outcome) := Cancel(l, sub, true, false, Some(token));
        (cancelled, Some(if outcome.Err? then Broken else Bypassed(sub)))
      else if l.futures[token] != Pending then (l, Some(Broken))
      else (l.(futures := l.futures[token := Resolved(update)]), Some(Delivered(sub, token)))
  }

  /** The candidate loop of `resolve`. */
  function Resolve(l: Local, subs: seq<ListenerKey>, bypass: bool, update: Update)
    : (r: (Local, Resolution))
    requires l.Closed()
    ensures r.0.Closed()
    ensures r.0.futures.Keys == l.futures.Keys
    decreases |subs|
  {
    if |subs| == 0 then (l, Unresolved)
    else
      var (next, end) := Try(l, subs[0], bypass, update);
      if end.Some? then (next, end.value) else Resolve(next, subs[1..], bypass, update)
  }

  lemma ResolveUnfolds(l: Local, subs: seq<ListenerKey>, bypass: bool, update: Update)
    requires l.Closed()
    ensures Resolve(l, subs, bypass, update) ==
            if |subs| == 0 then (l, Unresolved)
            else var (next, end) := Try(l, subs[0], bypass, update);
                 if end.Some? then (next, end.value) else Resolve(next, subs[1..], bypass, update)
  {
  }

  // ---------------------------------------------------------------- what resolve decides

  /** This session holds the registered listener of `sub`. */
  predicate Owns(l: Local, sub: ListenerKey) {
    sub in l.listeners && Registered(l.registry, sub, Some(l.listeners[sub]))
  }

  /** The loop ends at this candidate: it is owned, or its listener is already completed. */
  predicate Decisive(l: Local, sub: ListenerKey)
    requires l.Closed()
  {
    && sub in l.listeners
    && (Registered(l.registry, sub, Some(l.listeners[sub])) || l.futures[l.listeners[sub]] != Pending)
  }

  function FirstDecisive(l: Local, subs: seq<ListenerKey>): (i: nat)
    requires l.Closed()
    ensures i <= |subs|
    ensures i < |subs| ==> Decisive(l, subs[i])
    ensures forall j :: 0 <= j < i ==> !Decisive(l, subs[j])
  {
    if |subs| == 0 || Decisive(l, subs[0]) then 0 else 1 + FirstDecisive(l, subs[1..])
  }

  /** Fail and forget the local listener under a key, leaving the coordinator alone. */
  function DiscardOne(l: Local, key: ListenerKey): (r: Local)
    requires l.Closed()
    ensures r.Closed()
  {
    if key in l.listeners then
      l.(listeners := l.listeners - {key}, futures := l.futures[l.listeners[key] := Failed(ListenerCancelled(false))])
    else l
  }

  function Discard(l: Local, subs: seq<ListenerKey>): (r: Local)
    requires l.Closed()
    ensures r.Closed()
    decreases |subs|
  {
    if |subs| == 0 then l else Discard(DiscardOne(l, subs[0]), subs[1..])
  }

  /** Two keys never hold the same generation. */
  ghost predicate OwnTokens(l: Local) {
    forall j, k :: j in l.listeners && k in l.listeners && l.listeners[j] == l.listeners[k] ==> j == k
  }

  ghost predicate HeldBy(l: Local, token: Token, subs: seq<ListenerKey>) {
    exists k :: k in subs && k in l.listeners && l.listeners[k] == token
  }

  /** Discarding removes exactly the named listeners and fails exactly their futures. */
  lemma {:induction false} DiscardMeaning(l: Local, subs: seq<ListenerKey>)
    requires l.Closed() && OwnTokens(l)
    ensures var d := Discard(l, subs);
            && d == l.(listeners := d.listeners, futures := d.futures)
            && (forall k :: k in d.listeners <==> k in l.listeners && k !in subs)
            && (forall k :: k in d.listeners ==> d.listeners[k] == l.listeners[k])
            && d.futures.Keys == l.futures.Keys
            && (forall t :: t in l.futures ==>
                  (d.futures[t] == if HeldBy(l, t, subs) then Failed(ListenerCancelled(false)) else l.futures[t]))
    decreases |subs|
  {
    if |subs| > 0 {
      var rest := DiscardOne(l, subs[0]);
      DiscardMeaning(rest, subs[1..]);
      assert forall k :: k in subs <==> k == subs[0] || k in subs[1..];
      forall t
        ensures HeldBy(l, t, subs) ==
                (HeldBy(rest, t, subs[1..]) || (subs[0] in l.listeners && l.listeners[subs[0]] == t))
      {
        if HeldBy(l, t, subs) {
          var k :| k in subs && k in l.listeners && l.listeners[k] == t;
          assert k == subs[0] || (k in subs[1..] && k in rest.listeners);
        }
      }
    }
  }

  lemma {:induction false} FirstDecisiveAgrees(a: Local, b: Local, subs: seq<ListenerKey>)
    requires a.Closed() && b.Closed() && forall k :: k in subs ==> Decisive(a, k) == Decisive(b, k)
    ensures FirstDecisive(a, subs) == FirstDecisive(b, subs)
  {
    if |subs| > 0 { FirstDecisiveAgrees(a, b, subs[1..]); }
  }

  /** One turn of the loop past a candidate that does not end it. */
  lemma PassIndecisive(l: Local, subs: seq<ListenerKey>, bypass: bool, update: Update)
    requires l.Closed() && OwnTokens(l) && Distinct(subs)
    requires |subs| > 0 && !Decisive(l, subs[0])
    ensures var next := DiscardOne(l, subs[0]);
            && OwnTokens(next) && Distinct(subs[1..])
            && Resolve(l, subs, bypass, update) == Resolve(next, subs[1..], bypass, update)
            && FirstDecisive(l, subs) == 1 + FirstDecisive(next, subs[1..])
            && (forall k :: k in subs[1..] && k in l.listeners ==>
                  && k in next.listeners && next.listeners[k] == l.listeners[k]
                  && next.futures[l.listeners[k]] == l.futures[l.listeners[k]])
  {
    var next := DiscardOne(l, subs[0]);
    assert Try(l, subs[0], bypass, update) == (next, None);
    hide Try, Cancel;
    assert forall k :: k in subs[1..] ==> k in subs && k != subs[0];
    forall k | k in subs[1..] ensures Decisive(l, k) == Decisive(next, k) {
      assert next.registry == l.registry;
    }
    FirstDecisiveAgrees(l, next, subs[1..]);
  }

  /** How the loop ends at a candidate it owns or whose listener is completed, the earlier ones discarded. */
  function EndAt(d: Local, sub: ListenerKey, bypass: bool, update: Update): (Local, Resolution)
    requires d.Closed() && sub in d.listeners
  {
    var token := d.listeners[sub];
    var popped := d.(listeners := d.listeners - {sub});
    if d.futures[token] != Pending then
      (if Owns(d, sub) && !bypass then d else popped, Broken)
    else if bypass then (Invalidate(DiscardOne(d, sub), sub), Bypassed(sub))
    else (d.(futures := d.futures[token := Resolved(update)]), Delivered(sub, token))
  }

  /** What `resolve` does, on every table: the first candidate that is owned or completed decides. Owned,
      it gets the update or, if the update is bypassed, is cancelled everywhere; completed, it raises.
      Before it, exactly the superseded listeners are discarded; after it, nothing is touched. */
  lemma {:induction false} FirstDecisiveDecides(l: Local, subs: seq<ListenerKey>, bypass: bool, update: Update)
    requires l.Closed() && OwnTokens(l) && Distinct(subs)
    ensures var i := FirstDecisive(l, subs);
            var discarded := Discard(l, subs[..i]);
            && (i < |subs| ==> subs[i] in discarded.listeners)
            && Resolve(l, subs, bypass, update) ==
               if i == |subs| then (discarded, Unresolved) else EndAt(discarded, subs[i], bypass, update)
    decreases |subs|
  {
    if |subs| > 0 {
      if Decisive(l, subs[0]) {
        assert subs[..0] == [];
        DecidedAtOnce(l, subs, bypass, update);
      } else {
        var next, i := DiscardOne(l, subs[0]), FirstDecisive(l, subs);
        PassIndecisive(l, subs, bypass, update);
        FirstDecisiveDecides(next, subs[1..], bypass, update);
        assert subs[..i][0] == subs[0] && subs[..i][1..] == subs[1..][..i - 1];
        assert Discard(l, subs[..i]) == Discard(next, subs[1..][..i - 1]);
      }
    }
  }

  /** The same, entry by entry. Before candidate `i` every listener is superseded and still waiting: it goes, and
      its future fails. Candidate `i` is registered here, or completed. Completed, it raises; waiting, it gets
      the update, or under bypass fails and gives up its registration with a signal for its token. */
  lemma ResolveExactly(l: Local, subs: seq<ListenerKey>, bypass: bool, update: Update) returns (i: nat)
    requires l.Closed() && OwnTokens(l) && Distinct(subs)
    ensures i <= |subs|
    ensures forall j :: 0 <= j < i && subs[j] in l.listeners ==>
              Lookup(l.registry, subs[j]) != Some(l.listeners[subs[j]]) && l.futures[l.listeners[subs[j]]] == Pending
    ensures i < |subs| ==>
              && subs[i] in l.listeners
              && (Lookup(l.registry, subs[i]) == Some(l.listeners[subs[i]])
                  || l.futures[l.listeners[subs[i]]] != Pending)
    ensures var (n, end) := Resolve(l, subs, bypass, update);
            i == |subs| ==>
              && end == Unresolved && n == l.(listeners := n.listeners, futures := n.futures)
              && (forall k :: k in n.listeners <==> k in l.listeners && k !in subs)
              && (forall k :: k in n.listeners ==> n.listeners[k] == l.listeners[k])
              && n.futures.Keys == l.futures.Keys
              && (forall f :: f in l.futures ==>
                    n.futures[f] == if HeldBy(l, f, subs) then Failed(ListenerCancelled(false)) else l.futures[f])
    ensures var (n, end) := Resolve(l, subs, bypass, update);
            i < |subs| ==>
              var key, token := subs[i], l.listeners[subs[i]];
              var waiting, mine := l.futures[token] == Pending, Lookup(l.registry, key) == Some(token);
              && end == (if !waiting then Broken else if bypass then Bypassed(key) else Delivered(key, token))
              && (forall k :: k in n.listeners <==>
                    k in l.listeners && k !in subs[..i] && (k == key ==> mine && !bypass))
              && (forall k :: k in n.listeners ==> n.listeners[k] == l.listeners[k])
              && n.futures.Keys == l.futures.Keys
              && (forall f :: f in l.futures ==>
                    n.futures[f] == if HeldBy(l, f, subs[..i]) then Failed(ListenerCancelled(false))
                                    else if f != token || !waiting then l.futures[f]
                                    else if bypass then Failed(ListenerCancelled(false)) else Resolved(update))
              && n.registry == (if end.Bypassed? then l.registry - {key} else l.registry)
              && n.owned == (if end.Bypassed? then l.owned - {key} else l.owned)
              && n.channel == l.channel + (if end.Bypassed? then [Signal(key, token)] else [])
  {
    hide Resolve, Discard, EndAt;
    i := FirstDecisive(l, subs);
    FirstDecisiveDecides(l, subs, bypass, update);
    DiscardMeaning(l, subs[..i]);
    if i < |subs| {
      assert subs[i] !in subs[..i];
      assert !HeldBy(l, l.listeners[subs[i]], subs[..i]);
      EndsExactly(Discard(l, subs[..i]), subs[i], bypass, update);
    } else {
      assert subs[..i] == subs;
    }
  }

  lemma EndsExactly(d: Local, key: ListenerKey, bypass: bool, update: Update)
    requires d.Closed() && key in d.listeners && Decisive(d, key)
    ensures var (n, end) := EndAt(d, key, bypass, update);
            var token := d.listeners[key];
            var waiting, mine := d.futures[token] == Pending, Lookup(d.registry, key) == Some(token);
            && end == (if !waiting then Broken else if bypass then Bypassed(key) else Delivered(key, token))
            && n.listeners == (if bypass || !mine then d.listeners - {key} else d.listeners)
            && n.futures == (if !waiting then d.futures
                             else d.futures[token := if bypass then Failed(ListenerCancelled(false))
                                                     else Resolved(update)])
            && n.registry == (if end.Bypassed? then d.registry - {key} else d.registry)
            && n.owned == (if end.Bypassed? then d.owned - {key} else d.owned)
            && n.channel == d.channel + (if end.Bypassed? then [Signal(key, token)] else [])
  {
  }

  lemma DecidedAtOnce(l: Local, subs: seq<ListenerKey>, bypass: bool, update: Update)
    requires l.Closed() && |subs| > 0 && Decisive(l, subs[0])
    ensures Resolve(l, subs, bypass, update) == EndAt(l, subs[0], bypass, update)
  {
  }
}
