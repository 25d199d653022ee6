/** pyroflow/dispatcher.py: the settlement object, and `handle_update` around the group loop. */
module Dispatchers {
  import opened Wrappers
  import opened ListenerKeys
  import opened ListenerSteps
  import opened UpdateListeners
  import opened UpdateCoordinators
  import opened HandlerGroups

  /** Where an update id is recorded as handled. */
  function HandledKey(coordinator: MemoryUpdateCoordinator, id: UpdateKey): string {
    BuildKey(coordinator.updateName, id, HandledSection)
  }

  /** `_early`: the settlement a claim scheduled. */
  datatype EarlySettlement = NotClaimed | Scheduled | Performed

  class CoordinatedRelease {
    const coordinator: MemoryUpdateCoordinator
    const lock: TimedLock
    var early: EarlySettlement
    var released: bool
    var updateId: Option<UpdateKey>

    // How often the lock had been given back when it was taken for this update.
    ghost const before: nat

    /** The lock is held for this update, or an early settlement has registered it and given it back. */
    ghost predicate Open()
      reads this, lock, coordinator
    {
      if early == Performed then
        released && !lock.locked && lock.releases == before + 1
        && (updateId.Some? ==> coordinator.IsRecorded(updateId.value))
      else !released && lock.locked && lock.releases == before
    }

    /** The lock taken for this update is back; whoever holds it now is not this update. */
    ghost predicate Spent()
      reads this, lock
    {
      released && lock.releases > before
    }

    constructor (coordinator: MemoryUpdateCoordinator, lock: TimedLock)
      requires lock.locked
      ensures this.coordinator == coordinator && this.lock == lock && before == lock.releases
      ensures early == NotClaimed && !released && updateId == None && Open()
    {
      this.coordinator, this.lock, before := coordinator, lock, lock.releases;
      early, released, updateId := NotClaimed, false, None;
    }

    /** `claim_early` */
    method ClaimEarly() returns (took: bool)
      modifies this`early
      ensures took <==> old(early) == NotClaimed && !released
      ensures early == if took then Scheduled else old(early)
      ensures old(Open()) ==> Open()
    {
      if early != NotClaimed || released {
        return false;
      }
      early := Scheduled;
      return true;
    }

    /** `_settle`: register, then release; once. */
    method SettleNow(handled: bool)
      requires !released ==> lock.locked
      modifies this`released, coordinator`handled, lock
      ensures released
      ensures lock.releases == old(lock.releases) + (if old(released) then 0 else 1)
      ensures lock.locked == if old(released) then old(lock.locked) else false
      ensures coordinator.handled
              == if !old(released) && handled && updateId.Some?
                 then old(coordinator.handled) + {HandledKey(coordinator, updateId.value)} else old(coordinator.handled)
    {
      if released {
        return;
      }
      released := true;
      if handled && updateId.Some? {
        coordinator.MarkHandled(updateId.value);
      }
      lock.Release();
    }

    /** The event loop gets round to the scheduled settlement. */
    method PerformEarly()
      requires early == Scheduled && (Open() || Spent())
      modifies this`early, this`released, coordinator`handled, lock
      ensures early == Performed && (if old(Open()) then Open() else Spent())
      ensures old(released) ==>
                lock.locked == old(lock.locked) && lock.releases == old(lock.releases)
                && coordinator.handled == old(coordinator.handled)
      ensures !old(released) ==>
                coordinator.handled
                == if updateId.Some?
                   then old(coordinator.handled) + {HandledKey(coordinator, updateId.value)}
                   else old(coordinator.handled)
    {
      SettleNow(true);
      early := Performed;
    }

    /** `settle`: wait out a claimed settlement, or settle now. The lock comes back exactly once; from then
        on settling does nothing, whoever holds the lock and however late a claim was taken. */
    method Settle(handled: bool)
      requires Open() || Spent()
      modifies this`early, this`released, coordinator`handled, lock
      ensures Spent() && early == if old(early) == NotClaimed then NotClaimed else Performed
      ensures old(released) ==>
                lock.locked == old(lock.locked) && lock.releases == old(lock.releases)
                && coordinator.handled == old(coordinator.handled)
      ensures !old(released) ==> !lock.locked && lock.releases == before + 1
      ensures !old(released) ==>
                coordinator.handled
                == if updateId.Some? && (handled || old(early) != NotClaimed)
                   then old(coordinator.handled) + {HandledKey(coordinator, updateId.value)}
                   else old(coordinator.handled)
    {
      if early != NotClaimed {
        if early == Scheduled {
          PerformEarly();
        }
        return;
      }
      SettleNow(handled);
    }
  }

  // ---------------------------------------------------------------- handle_listen

  /** What an update's listener decides about it, and what its `on_unresolved` does: raise, as the default
      does, or return. */
  datatype Incoming = Incoming(listenable: bool, key: ListenerKey, bypass: bool, quiet: bool, update: Update)

  /** An update stops at its listener when nobody listens at all, or when the first candidate that decides
      is owned, still waiting and not bypassed; or when no candidate decides and nobody minds. */
  predicate StopsAt(l: Local, incoming: Incoming)
    requires l.Closed()
  {
    && incoming.listenable
    && (l.listeners == map[] ||
        var subs := SubKeys(incoming.key, 1);
        var i := FirstDecisive(l, subs);
        if i == |subs| then incoming.quiet
        else !incoming.bypass && Owns(l, subs[i]) && l.futures[l.listeners[subs[i]]] == Pending)
  }

  lemma DistinctSubKeys(key: ListenerKey)
    ensures Distinct(SubKeys(key, 1))
  {
    var subs := SubKeys(key, 1);
    forall i, j | 0 <= i < j < |subs| ensures subs[i] != subs[j] {
      SubKeysOrdered(key, 1, i, j);
    }
  }

  /** Discarding other candidates leaves a candidate's own listener as it was. */
  lemma DiscardSpares(l: Local, subs: seq<ListenerKey>, sub: ListenerKey)
    requires l.Closed() && OwnTokens(l) && sub in l.listeners && sub !in subs
    ensures var d := Discard(l, subs);
            && sub in d.listeners && d.listeners[sub] == l.listeners[sub] && Owns(d, sub) == Owns(l, sub)
            && d.futures[l.listeners[sub]] == l.futures[l.listeners[sub]]
  {
    DiscardMeaning(l, subs);
    assert !HeldBy(l, l.listeners[sub], subs);
  }

  /** On a table that is not empty, `resolve` returns exactly where propagation is to stop. */
  lemma ResolveStopsExactly(l: Local, incoming: Incoming)
    requires l.Closed() && OwnTokens(l) && incoming.listenable && l.listeners != map[]
    ensures var end := Resolve(l, SubKeys(incoming.key, 1), incoming.bypass, incoming.update).1;
            StopsAt(l, incoming) <==> end.Delivered? || (end.Unresolved? && incoming.quiet)
  {
    hide Resolve, SubKeys;
    var subs := SubKeys(incoming.key, 1);
    var i := FirstDecisive(l, subs);
    DistinctSubKeys(incoming.key);
    FirstDecisiveDecides(l, subs, incoming.bypass, incoming.update);
    if i < |subs| {
      assert subs[i] !in subs[..i];
      DiscardSpares(l, subs[..i], subs[i]);
    }
  }

  /** What `handle_listen` leaves of what the listener sees. */
  function AfterListen(l: Local, incoming: Incoming): Local
    requires l.Closed()
  {
    if incoming.listenable && l.listeners != map[]
    then Resolve(l, SubKeys(incoming.key, 1), incoming.bypass, incoming.update).0
    else l
  }

  lemma Hears(listener: UpdateListener, incoming: Incoming)
    requires listener.Valid()
    ensures AfterListen(listener.Seen(), incoming) ==
            if incoming.listenable && listener.listeners != map[]
            then Resolve(listener.Seen(), SubKeys(incoming.key, 1), incoming.bypass, incoming.update).0
            else listener.Seen()
  {
    if k :| k in listener.listeners {
      assert k in listener.Tokens();
    } else {
      assert listener.Tokens() == map[];
    }
  }

  /** What a listener may touch. */
  ghost function ListenScope(listener: UpdateListener?): set<object>
    reads listener
  {
    if listener == null then {}
    else {listener, listener.coordinator, listener.coordinator.redis} + listener.futures.Values
  }

  /** What the listener for the update's type sees, if there is one. */
  ghost function Heard(listener: UpdateListener?): (heard: Option<Local>)
    requires listener != null ==> listener.Valid()
    reads listener, ListenScope(listener)
    ensures heard.Some? ==> heard.value.Closed()
  {
    if listener == null then None else Some(listener.Seen())
  }

  /** There is a listener for the update's type, and the update stops at it. */
  predicate Listened(heard: Option<Local>, incoming: Incoming)
    requires heard.Some? ==> heard.value.Closed()
  {
    heard.Some? && StopsAt(heard.value, incoming)
  }

  // ---------------------------------------------------------------- the group loop

  datatype GroupEnd = Passed | HandledBy(handler: Handler) | RaisedBy(handler: Handler) | StoppedBy | UnhandledBy

  function GroupEndOf(group: Group): GroupEnd {
    match Decider(group)
    case None => Passed
    case Some(d) =>
      match d.callback
      case Returns => HandledBy(d)
      case Raises => RaisedBy(d)
      case Stops => StoppedBy
      case Unhandles => UnhandledBy
      case Continues => Passed
  }

  /** How a group ends is how the last handler it reached ended; it is passed when every handler it calls
      passes the update on. */
  lemma {:induction false} GroupEndExactly(group: Group)
    ensures GroupEndOf(group).Passed? <==>
              forall h :: h in group && h.kind in {OfUpdateType, RawUpdate} && h.check == Passes ==>
                h.callback == Continues
    ensures !GroupEndOf(group).Passed? ==>
              && Reached(group) != []
              && var last := Reached(group)[|Reached(group)| - 1];
                 GroupEndOf(group) ==
                 if last.callback == Returns then HandledBy(last)
                 else if last.callback == Raises then RaisedBy(last)
                 else if last.callback == Stops then StoppedBy
                 else UnhandledBy
  {
    hide Reached, Decider;
    ReachedUpToDecider(group);
    var n := DeciderExactly(group);
  }

  /** What one group adds to the loop's end. */
  function Onward(group: GroupEnd, rest: LoopEnd): LoopEnd {
    match group
    case StoppedBy => Stopped
    case UnhandledBy => Unhandled
    case HandledBy(d) => Accumulate(1, 0, [d], rest)
    case RaisedBy(d) => Accumulate(0, 1, [], rest)
    case Passed => rest
  }

  lemma FoldOnward(groups: seq<Group>, i: nat)
    requires i < |groups|
    ensures Fold(groups[i..]) == Onward(GroupEndOf(groups[i]), Fold(groups[i + 1..]))
    ensures AllReached(groups[i..])
            == Reached(groups[i])
               + (if GroupEndOf(groups[i]) in {StoppedBy, UnhandledBy} then [] else AllReached(groups[i + 1..]))
  {
    assert groups[i..][0] == groups[i] && groups[i..][1..] == groups[i + 1..];
  }

  function AnyClaims(hs: seq<Handler>): bool {
    |hs| > 0 && (hs[|hs| - 1].claims || AnyClaims(hs[..|hs| - 1]))
  }

  lemma {:induction false} AnyClaimsExactly(hs: seq<Handler>)
    ensures AnyClaims(hs) <==> exists h :: h in hs && h.claims
  {
    if |hs| > 0 {
      AnyClaimsExactly(hs[..|hs| - 1]);
      assert hs == hs[..|hs| - 1] + [hs[|hs| - 1]];
    }
  }

  lemma AnyClaimsGrows(hs: seq<Handler>, h: Handler)
    ensures AnyClaims(hs + [h]) == (AnyClaims(hs) || h.claims)
  {
    assert (hs + [h])[..|hs|] == hs;
  }

  lemma {:induction false} AnyClaimsJoins(a: seq<Handler>, b: seq<Handler>)
    ensures AnyClaims(a + b) == (AnyClaims(a) || AnyClaims(b))
  {
    if |b| == 0 {
      assert a + b == a;
    } else {
      var front := b[..|b| - 1];
      AnyClaimsJoins(a, front);
      assert a + b == a + front + [b[|b| - 1]];
      AnyClaimsGrows(a + front, b[|b| - 1]);
    }
  }

  /** What the handlers may touch: nothing, if the update is not coordinated. */
  function Scope(release: CoordinatedRelease?): set<object> {
    if release == null then {} else {release, release.coordinator, release.lock}
  }

  /** The settlement object and the backend as the handlers found them. */
  datatype Snapshot =
    Snapshot(early: EarlySettlement, id: UpdateKey, handled: set<string>, locks: map<string, TimedLock>)

  ghost function Snap(release: CoordinatedRelease): Snapshot
    requires release.updateId.Some?
    reads release, release.coordinator
  {
    Snapshot(release.early, release.updateId.value, release.coordinator.handled, release.coordinator.locks)
  }

  /** Since the snapshot, a claim (if there was one) was taken, and has registered at most this update. */
  ghost predicate Since(release: CoordinatedRelease?, snap: Snapshot, claims: bool)
    reads Scope(release)
  {
    release != null ==>
      && release.Open() && release.updateId == Some(snap.id)
      && release.coordinator.locks == snap.locks
      && (release.early != NotClaimed <==> snap.early != NotClaimed || claims)
      && release.coordinator.handled
         == (if release.early == Performed && snap.early != Performed
             then snap.handled + {HandledKey(release.coordinator, snap.id)} else snap.handled)
      && (snap.early == Performed ==> release.early == Performed)
  }

  /** `_handle_update` as a whole: a listener that stops propagation keeps the handlers out of it. */
  function InnerEnd(stops: bool, groups: seq<Group>): LoopEnd {
    if stops then Stopped else Fold(groups)
  }

  function InnerReached(stops: bool, groups: seq<Group>): seq<Handler> {
    if stops then [] else AllReached(groups)
  }

  /** Counters and records so far, followed by the rest of the loop. */
  function Accumulate(handled: nat, raised: nat, successes: seq<Handler>, rest: LoopEnd): LoopEnd {
    match rest
    case Completed(h, r, s) => Completed(handled + h, raised + r, successes + s)
    case end => end
  }

  /** How coordination is set up for an update. */
  datatype Setup = NotCoordinated | SetupRaises | NotCoordinatable | Coordinatable(scope: UpdateKey)

  datatype UpdateEnd = Uncoordinated(end: LoopEnd) | TimedOut | IdentityRaised | Dropped | Processed(end: LoopEnd)

  function LockName(coordinator: MemoryUpdateCoordinator, scope: UpdateKey): string {
    BuildKey(coordinator.updateName, scope, LockSection)
  }

  /** Scopes of integers share a lock exactly when they are the same scope. */
  lemma LockNamesApart(coordinator: MemoryUpdateCoordinator, a: UpdateKey, b: UpdateKey)
    requires Integers(a) && Integers(b)
    ensures LockName(coordinator, a) == LockName(coordinator, b) <==> a == b
  {
    if LockName(coordinator, a) == LockName(coordinator, b) {
      IntegerKeysInjective(coordinator.updateName, a, b, LockSection);
    }
  }

  /** How a lock stands, and how often it has been given back. */
  datatype LockState = LockState(locked: bool, releases: nat)

  ghost function LockShown(lock: TimedLock): LockState
    reads lock
  {
    LockState(lock.locked, lock.releases)
  }

  /** The coordinator's locks, by name. */
  ghost function LockStates(coordinator: MemoryUpdateCoordinator): (states: map<string, LockState>)
    reads coordinator, coordinator.locks.Values
    ensures states.Keys == coordinator.locks.Keys
  {
    map k | k in coordinator.locks :: LockShown(coordinator.locks[k])
  }

  /** The lock is in someone else's hands. */
  predicate Held(states: map<string, LockState>, name: string) {
    name in states && states[name].locked
  }

  function Releases(states: map<string, LockState>, name: string): nat {
    if name in states then states[name].releases else 0
  }

  /** What becomes of an update once its scope's lock is held. */
  function HeldEnd(identity: Option<UpdateKey>, stops: bool, groups: seq<Group>, recorded: bool): (end: UpdateEnd)
    ensures !end.TimedOut? && !end.Uncoordinated?
  {
    if identity.None? then IdentityRaised
    else if recorded then Dropped
    else Processed(InnerEnd(stops, groups))
  }

  /** The handlers it reaches. */
  function ReachedBy(end: UpdateEnd, stops: bool, groups: seq<Group>): seq<Handler> {
    if end.Uncoordinated? || end.Processed? then InnerReached(stops, groups) else []
  }

  /** The registry afterwards: with the update's id if it was processed and counts as handled, or if a
      handler it reached claimed; otherwise as it was. */
  function HandledAfter(coordinator: MemoryUpdateCoordinator, handled: set<string>, identity: Option<UpdateKey>,
                        end: UpdateEnd, ran: seq<Handler>): set<string>
  {
    if end.Processed? && identity.Some? && (CountsAsHandled(end.end) || AnyClaims(ran))
    then handled + {HandledKey(coordinator, identity.value)} else handled
  }

  /** Its listener hears of it exactly if it gets that far. */
  function HeardAfter(end: UpdateEnd, heard: Option<Local>, incoming: Incoming): Option<Local>
    requires heard.Some? ==> heard.value.Closed()
  {
    if (end.Uncoordinated? || end.Processed?) && heard.Some? then Some(AfterListen(heard.value, incoming)) else heard
  }

  /** The listener is untouched by an update that gets no further, or is not listenable, or finds its table empty;
      any other goes through its candidates. */
  lemma HeardExactly(end: UpdateEnd, l: Local, incoming: Incoming)
    requires l.Closed()
    ensures HeardAfter(end, None, incoming) == None
    ensures HeardAfter(end, Some(l), incoming) ==
            if (end.Uncoordinated? || end.Processed?) && incoming.listenable && l.listeners != map[]
            then Some(Resolve(l, SubKeys(incoming.key, 1), incoming.bypass, incoming.update).0)
            else Some(l)
  {
  }

  /** What becomes of an update, given how it found the lock and the registry. */
  function EndOf(setup: Setup, identity: Option<UpdateKey>, stops: bool, groups: seq<Group>, held: bool, recorded: bool)
    : UpdateEnd
  {
    if !setup.Coordinatable? then Uncoordinated(InnerEnd(stops, groups))
    else if held then TimedOut
    else HeldEnd(identity, stops, groups, recorded)
  }

  /** The handlers handed to the history: those of a loop that ran to its end. */
  function RecordsOf(stops: bool, end: UpdateEnd): seq<Handler> {
    if (end.Uncoordinated? || end.Processed?) && !stops && end.end.Completed? then end.end.successes else []
  }

  /** Exactly one of five things becomes of an update: coordination is not set up for it; someone else holds its
      lock; its identity raises; it is recorded, and dropped; or it is processed. Only the first and the last
      reach handlers, unless its listener stops it; the history gets those that returned, if the loop
      ran to its end. */
  lemma EndExactly(setup: Setup, identity: Option<UpdateKey>, stops: bool, groups: seq<Group>, held: bool,
                   recorded: bool)
    ensures var end := EndOf(setup, identity, stops, groups, held, recorded);
            var ran, records := ReachedBy(end, stops, groups), RecordsOf(stops, end);
            && (end.Uncoordinated? <==> !setup.Coordinatable?)
            && (end.TimedOut? <==> setup.Coordinatable? && held)
            && (end.IdentityRaised? <==> setup.Coordinatable? && !held && identity.None?)
            && (end.Dropped? <==> setup.Coordinatable? && !held && identity.Some? && recorded)
            && (end.Processed? <==> setup.Coordinatable? && !held && identity.Some? && !recorded)
            && (end.Uncoordinated? || end.Processed? ==>
                  && end.end == (if stops then Stopped else Fold(groups))
                  && ran == (if stops then [] else AllReached(groups))
                  && records == (if end.end.Completed? then Ending(ran, Returns) else []))
            && (!end.Uncoordinated? && !end.Processed? ==> ran == [] && records == [])
  {
    EndIsReached(groups);
    hide Fold, AllReached, Ending;
  }

  /** Afterwards the id is recorded if it was before, or the update was processed and a listener or a handler
      stopped it, some handler returned or raised, or one that was reached claimed. Of all integer ids no other
      becomes recorded. */
  lemma RecordedExactly(coordinator: MemoryUpdateCoordinator, handled: set<string>, identity: Option<UpdateKey>,
                        end: UpdateEnd, ran: seq<Handler>, id: UpdateKey)
    ensures identity == Some(id) || (Integers(id) && (identity.Some? ==> Integers(identity.value))) ==>
              (BuildKey(coordinator.updateName, id, HandledSection)
               in HandledAfter(coordinator, handled, identity, end, ran)
               <==>
               || BuildKey(coordinator.updateName, id, HandledSection) in handled
               || (identity == Some(id) && end.Processed?
                   && (end.end.Stopped?
                       || (end.end.Completed? && end.end.handled + end.end.raised > 0)
                       || exists h :: h in ran && h.claims)))
  {
    AnyClaimsExactly(ran);
    if identity.Some? && Integers(id) && Integers(identity.value) {
      RecordingIsExact(coordinator.updateName, handled, identity.value, id);
    }
  }

  class Dispatcher {
    var groups: seq<Group>

    constructor (groups: seq<Group>)
      ensures this.groups == groups
    {
      this.groups := groups;
    }

    /** One callback: it may call `mark_handled`, and the event loop may perform that right away. */
    method Invoke(h: Handler, release: CoordinatedRelease?, prompt: bool, ghost snap: Snapshot, ghost claims: bool)
      requires Since(release, snap, claims)
      modifies Scope(release)
      ensures Since(release, snap, claims || h.claims)
    {
      if release != null {
        if h.claims {
          var _ := release.ClaimEarly();
        }
        if prompt && release.early == Scheduled {
          release.PerformEarly();
        }
      }
    }

    /** Whether a handler is to be called: a failing check only skips it. */
    method Accepts(handler: Handler) returns (accepted: bool)
      ensures accepted <==> handler.kind in {OfUpdateType, RawUpdate} && handler.check == Passes
    {
      if handler.kind == ErrorHandling {
        return false;
      }
      accepted := false;
      if handler.kind == OfUpdateType {
        if handler.check == CheckRaises {
          return false;
        }
        accepted := handler.check == Passes;
      } else if handler.kind == RawUpdate {
        if handler.check == CheckRaises {
          return false;
        }
        accepted := handler.check == Passes;
      }
    }

    /** The inner loop: one group. */
    method RunGroup(group: Group, release: CoordinatedRelease?, prompt: bool, ghost snap: Snapshot, ghost claims: bool)
      returns (end: GroupEnd, ran: seq<Handler>)
      requires Since(release, snap, claims)
      modifies Scope(release)
      ensures end == GroupEndOf(group) && ran == Reached(group)
      ensures forall h :: h in ran ==> h.kind in {OfUpdateType, RawUpdate} && h.check == Passes
      ensures Since(release, snap, claims || AnyClaims(ran))
    {
      hide Since, Invoked, AnyClaims, Decider, Reached, Decides;
      ReachedUpToDecider(group);
      ran := [];
      assert !AnyClaims(ran) by { NoneClaims(); }
      for i := 0 to |group|
        invariant Decider(group) == Decider(group[i..])
        invariant Reached(group) == ran + Reached(group[i..])
        invariant Since(release, snap, claims || AnyClaims(ran))
      {
        var handler := group[i];
        GroupOnward(group, i);
        var accepted := Accepts(handler);
        if !accepted {
          continue;
        }
        Invoke(handler, release, prompt, snap, claims || AnyClaims(ran));
        AnyClaimsGrows(ran, handler);
        ran := ran + [handler];
        match handler.callback {
          case Stops => return StoppedBy, ran;
          case Unhandles => return UnhandledBy, ran;
          case Continues =>
          case Raises => return RaisedBy(handler), ran;
          case Returns => return HandledBy(handler), ran;
        }
      }
      GroupOver(group);
      end := Passed;
    }

    /** The outer loop, counting and recording as it goes. */
    method RunGroups(release: CoordinatedRelease?, recording: bool, prompt: bool, ghost snap: Snapshot,
                     ghost claims: bool)
      returns (end: LoopEnd, records: seq<Handler>, ran: seq<Handler>)
      requires Since(release, snap, claims)
      modifies Scope(release)
      ensures end == Fold(old(groups)) && ran == AllReached(old(groups))
      ensures records == if end.Completed? && recording then end.successes else []
      ensures Since(release, snap, claims || AnyClaims(ran))
    {
      hide Since, AnyClaims, GroupEndOf, Reached, Fold, AllReached, Onward, Accumulate;
      assert !AnyClaims([]) by { NoneClaims(); }
      var groups := this.groups;
      CountedNone(Fold(groups));
      var handled, raised := 0, 0;
      records, ran := [], [];
      var successes: seq<Handler> := [];
      for i := 0 to |groups|
        invariant Fold(groups) == Accumulate(handled, raised, successes, Fold(groups[i..]))
        invariant AllReached(groups) == ran + AllReached(groups[i..])
        invariant records == if recording then successes else []
        invariant Since(release, snap, claims || AnyClaims(ran))
      {
        FoldOnward(groups, i);
        Counted(handled, raised, successes, GroupEndOf(groups[i]), Fold(groups[i + 1..]));
        var group, reached := RunGroup(groups[i], release, prompt, snap, claims || AnyClaims(ran));
        AnyClaimsJoins(ran, reached);
        ran := ran + reached;
        match group {
          case StoppedBy => return Stopped, [], ran;
          case UnhandledBy => return Unhandled, [], ran;
          case RaisedBy(_) => raised := raised + 1;
          case HandledBy(handler) =>
            handled := handled + 1;
            successes := successes + [handler];
            if recording {
              records := records + [handler];
            }
          case Passed =>
        }
      }
      LoopOver(groups);
      CountedAll(handled, raised, successes);
      end := Completed(handled, raised, successes);
    }

    /** `handle_listen`: true when it stops propagation. */
    method HandleListen(listener: UpdateListener?, incoming: Incoming) returns (stops: bool)
      requires listener != null ==> listener.Valid()
      modifies ListenScope(listener)
      ensures listener != null ==> listener.Valid()
      ensures stops <==> Listened(old(Heard(listener)), incoming)
      ensures listener == null || !incoming.listenable ==> !stops
      ensures listener != null && incoming.listenable && old(listener.listeners) == map[] ==> stops
      ensures listener != null && (!incoming.listenable || old(listener.listeners) == map[]) ==>
                listener.Seen() == old(listener.Seen())
      ensures listener != null && incoming.listenable && old(listener.listeners) != map[] ==>
                listener.Seen()
                == Resolve(old(listener.Seen()), SubKeys(incoming.key, 1), incoming.bypass, incoming.update).0
    {
      if listener == null || !incoming.listenable {
        return false;
      }
      if k :| k in listener.listeners {
        assert k in listener.Tokens();
        ResolveStopsExactly(listener.Seen(), incoming);
      } else {
        assert listener.Tokens() == map[];
      }
      hide StopsAt, ListenerSteps.Resolve;
      var r := listener.Resolve(incoming.key, incoming.bypass, incoming.update);
      match r {
        case Skipped => return true;
        case Ended(Delivered(_, _)) => return true;
        case Ended(Unresolved) => return incoming.quiet;
        case Ended(Bypassed(_)) => return false;
        case Ended(Broken) => return false;
      }
    }

    /** `_handle_update`: the listener first, then the groups. `records` is what goes to the history. */
    method HandleGroups(listener: UpdateListener?, incoming: Incoming, release: CoordinatedRelease?, recording: bool,
                        prompt: bool, ghost snap: Snapshot)
      returns (end: LoopEnd, records: seq<Handler>, ran: seq<Handler>)
      requires Since(release, snap, false) && (listener != null ==> listener.Valid())
      modifies Scope(release), ListenScope(listener)
      ensures listener != null ==> listener.Valid()
      ensures var stops := Listened(old(Heard(listener)), incoming);
              && end == InnerEnd(stops, old(groups)) && ran == InnerReached(stops, old(groups))
              && records == if recording then RecordsOf(stops, Processed(end)) else []
      ensures Since(release, snap, AnyClaims(ran))
      ensures Heard(listener) == HeardAfter(Processed(end), old(Heard(listener)), incoming)
    {
      hide Listened, StopsAt, AnyClaims, Fold, AllReached, UpdateListener.Valid, ListenerSteps.Resolve, SubKeys;
      if listener != null {
        Hears(listener, incoming);
      }
      var stops := HandleListen(listener, incoming);
      if stops {
        NoneClaims();
        return Stopped, [], [];
      }
      end, records, ran := RunGroups(release, recording, prompt, snap, false);
    }

    /** The scope's lock, created on first use, taken unless someone else holds it. */
    method TakeLock(coordinator: MemoryUpdateCoordinator, scope: UpdateKey) returns (lock: TimedLock, taken: bool)
      requires coordinator.Valid()
      modifies coordinator`locks, coordinator.locks.Values
      ensures coordinator.Valid() && lock.locked
      ensures var name, was := LockName(coordinator, scope), old(LockStates(coordinator));
              && taken == !Held(was, name) && lock.releases == Releases(was, name)
              && LockStates(coordinator) == was[name := LockState(true, Releases(was, name))]
              && coordinator.locks == old(coordinator.locks)[name := lock]
              && (name in old(coordinator.locks) ==> lock == old(coordinator.locks[name]))
              && (name !in old(coordinator.locks) ==> fresh(lock))
    {
      lock := coordinator.Lock(scope);
      taken := lock.Acquire();
    }

    /** The same, a listener hearing nothing of it. */
    method AwaitLock(coordinator: MemoryUpdateCoordinator, scope: UpdateKey, ghost listener: UpdateListener?)
      returns (lock: TimedLock, taken: bool)
      requires coordinator.Valid() && (listener != null ==> listener.Valid())
      modifies coordinator`locks, coordinator.locks.Values
      ensures coordinator.Valid() && lock.locked && (listener != null ==> listener.Valid())
      ensures var name, was := LockName(coordinator, scope), old(LockStates(coordinator));
              && taken == !Held(was, name) && lock.releases == Releases(was, name)
              && LockStates(coordinator) == was[name := LockState(true, Releases(was, name))]
              && coordinator.locks == old(coordinator.locks)[name := lock]
              && (name in old(coordinator.locks) ==> lock == old(coordinator.locks[name]))
              && (name !in old(coordinator.locks) ==> fresh(lock))
      ensures Heard(listener) == old(Heard(listener)) && ListenScope(listener) == old(ListenScope(listener))
    {
      hide LockName, LockStates, Held, Releases, UpdateListener.Valid;
      lock, taken := TakeLock(coordinator, scope);
    }

    /** An update whose id is known and not recorded: the pipeline, then the settlement. */
    method Process(release: CoordinatedRelease, listener: UpdateListener?, incoming: Incoming, recording: bool,
                   prompt: bool)
      returns (end: LoopEnd, records: seq<Handler>, ran: seq<Handler>)
      requires release.Open() && release.early == NotClaimed && release.updateId.Some?
      requires listener != null ==> listener.Valid()
      modifies Scope(release), ListenScope(listener)
      ensures listener != null ==> listener.Valid()
      ensures var stops := Listened(old(Heard(listener)), incoming);
              && end == InnerEnd(stops, old(groups)) && ran == InnerReached(stops, old(groups))
              && records == (if recording then RecordsOf(stops, Processed(end)) else [])
      ensures Heard(listener) == HeardAfter(Processed(end), old(Heard(listener)), incoming)
      ensures release.coordinator.handled
              == HandledAfter(release.coordinator, old(release.coordinator.handled), old(release.updateId),
                              Processed(end), ran)
      ensures release.coordinator.locks == old(release.coordinator.locks)
      ensures !release.lock.locked && release.lock.releases == release.before + 1
    {
      hide Heard, AfterListen, RecordsOf, InnerEnd, InnerReached;
      hide Listened, StopsAt, AnyClaims, Fold, AllReached, UpdateListener.Valid;
      ghost var snap := Snap(release);
      end, records, ran := HandleGroups(listener, incoming, release, recording, prompt, snap);
      ScopesApart(release, listener);
      release.Settle(CountsAsHandled(end));
    }

    /** What follows once the lock is held: whatever happens, it comes back once, and the id is recorded
        exactly when the update counts as handled or a handler claimed. */
    method Coordinate(coordinator: MemoryUpdateCoordinator, lock: TimedLock, identity: Option<UpdateKey>,
                      listener: UpdateListener?, incoming: Incoming, recording: bool, prompt: bool)
      returns (end: UpdateEnd, records: seq<Handler>, ran: seq<Handler>)
      requires lock.locked && (listener != null ==> listener.Valid())
      modifies coordinator, lock, ListenScope(listener)
      ensures listener != null ==> listener.Valid()
      ensures var stops := Listened(old(Heard(listener)), incoming);
              && end == HeldEnd(identity, stops, old(groups),
                                old(identity.Some? && coordinator.IsRecorded(identity.value)))
              && ran == ReachedBy(end, stops, old(groups))
              && records == (if recording then RecordsOf(stops, end) else [])
      ensures end.IdentityRaised? <==> identity.None?
      ensures end.Dropped? <==> identity.Some? && old(coordinator.IsRecorded(identity.value))
      ensures end.Processed? <==> identity.Some? && !old(coordinator.IsRecorded(identity.value))
      ensures !end.Processed? ==> ran == [] && records == [] && Heard(listener) == old(Heard(listener))
      ensures Heard(listener) == HeardAfter(end, old(Heard(listener)), incoming)
      ensures coordinator.handled == HandledAfter(coordinator, old(coordinator.handled), identity, end, ran)
      ensures coordinator.locks == old(coordinator.locks)
      ensures !lock.locked && lock.releases == old(lock.releases) + 1
    {
      hide Heard, AfterListen;
      hide Listened, StopsAt, AnyClaims, Fold, AllReached, UpdateListener.Valid;
      records, ran := [], [];
      var release := new CoordinatedRelease(coordinator, lock);
      if identity.None? {
        release.Settle(false);
        return IdentityRaised, [], [];
      }
      release.updateId := identity;
      var seen := coordinator.IsHandled(identity.value);
      if seen {
        release.Settle(false);
        return Dropped, [], [];
      }
      var inner;
      inner, records, ran := Process(release, listener, incoming, recording, prompt);
      end := Processed(inner);
    }

    /** The same among the coordinator's locks: no other lock moves. */
    method CoordinateAmong(coordinator: MemoryUpdateCoordinator, ghost name: string, lock: TimedLock,
                           identity: Option<UpdateKey>, listener: UpdateListener?, incoming: Incoming,
                           recording: bool, prompt: bool)
      returns (end: UpdateEnd, records: seq<Handler>, ran: seq<Handler>)
      requires coordinator.Valid() && (listener != null ==> listener.Valid())
      requires name in coordinator.locks && coordinator.locks[name] == lock && lock.locked
      modifies coordinator, lock, ListenScope(listener)
      ensures listener != null ==> listener.Valid()
      ensures var stops := Listened(old(Heard(listener)), incoming);
              && end == HeldEnd(identity, stops, old(groups),
                                old(identity.Some? && coordinator.IsRecorded(identity.value)))
              && ran == ReachedBy(end, stops, old(groups))
              && records == (if recording then RecordsOf(stops, end) else [])
      ensures Heard(listener) == HeardAfter(end, old(Heard(listener)), incoming)
      ensures coordinator.handled == HandledAfter(coordinator, old(coordinator.handled), identity, end, ran)
      ensures coordinator.locks == old(coordinator.locks)
      ensures LockStates(coordinator) == old(LockStates(coordinator))[name := LockState(false, old(lock.releases) + 1)]
    {
      hide Heard, AfterListen;
      hide Listened, StopsAt, AnyClaims, HeldEnd, RecordsOf, InnerEnd, InnerReached, UpdateListener.Valid;
      hide LockStates, HandledAfter, ReachedBy, ListenScope;
      StatesShow(coordinator);
      forall k | k in coordinator.locks ensures coordinator.locks[k] !in ListenScope(listener) {
        Apart(listener, coordinator.locks[k]);
      }
      end, records, ran := Coordinate(coordinator, lock, identity, listener, incoming, recording, prompt);
      forall k | k in coordinator.locks && k != name
        ensures LockShown(coordinator.locks[k]) == old(LockShown(coordinator.locks[k]))
      {
        assert coordinator.locks[k] != lock;
      }
      OneLockMoved(coordinator, name, old(LockStates(coordinator)));
    }

    /** The coordinated part of `handle_update`: only the scope's lock moves, and it comes back. */
    method HandleCoordinated(coordinator: MemoryUpdateCoordinator, scope: UpdateKey, identity: Option<UpdateKey>,
                             listener: UpdateListener?, incoming: Incoming, recording: bool, prompt: bool)
      returns (end: UpdateEnd, records: seq<Handler>, ran: seq<Handler>)
      requires coordinator.Valid() && (listener != null ==> listener.Valid())
      modifies coordinator, coordinator.locks.Values, ListenScope(listener)
      ensures coordinator.Valid() && (listener != null ==> listener.Valid())
      ensures var stops := Listened(old(Heard(listener)), incoming);
              && end == EndOf(Coordinatable(scope), identity, stops, old(groups),
                              Held(old(LockStates(coordinator)), LockName(coordinator, scope)),
                              old(identity.Some? && coordinator.IsRecorded(identity.value)))
              && ran == ReachedBy(end, stops, old(groups))
              && records == (if recording then RecordsOf(stops, end) else [])
      ensures Heard(listener) == HeardAfter(end, old(Heard(listener)), incoming)
      ensures coordinator.handled == HandledAfter(coordinator, old(coordinator.handled), identity, end, ran)
      ensures var was, name := old(LockStates(coordinator)), LockName(coordinator, scope);
              LockStates(coordinator)
              == if end.TimedOut? then was else was[name := LockState(false, Releases(was, name) + 1)]
      ensures var name := LockName(coordinator, scope);
              && name in coordinator.locks
              && coordinator.locks == old(coordinator.locks)[name := coordinator.locks[name]]
              && (name in old(coordinator.locks) ==> coordinator.locks[name] == old(coordinator.locks[name]))
    {
      hide Heard, AfterListen;
      hide Listened, StopsAt, AnyClaims, HeldEnd, RecordsOf, InnerEnd, InnerReached, UpdateListener.Valid;
      hide LockStates, LockName, Held, Releases, HandledAfter, ReachedBy, MemoryUpdateCoordinator.IsRecorded;
      hide EndOf, HeardAfter;
      ghost var stops := Listened(Heard(listener), incoming);
      ghost var recorded := identity.Some? && coordinator.IsRecorded(identity.value);
      TimedOutDoesNothing(coordinator, coordinator.handled, identity, stops, groups, Heard(listener), incoming);
      EndsByLock(scope, identity, stops, groups, recorded);
      hide ListenScope;
      var lock, taken := AwaitLock(coordinator, scope, listener);
      if !taken {
        StillHeld(old(LockStates(coordinator)), LockName(coordinator, scope));
        return TimedOut, [], [];
      }
      ghost var name := LockName(coordinator, scope);
      GivenBack(old(LockStates(coordinator)), name, lock.releases);
      end, records, ran := CoordinateAmong(coordinator, name, lock, identity, listener, incoming, recording, prompt);
    }

    /** `handle_update`. `identity` is None when `extract_update_id` raises. */
    method HandleUpdate(coordinator: MemoryUpdateCoordinator, setup: Setup, identity: Option<UpdateKey>,
                        listener: UpdateListener?, incoming: Incoming, recording: bool, prompt: bool)
      returns (end: UpdateEnd, records: seq<Handler>, ran: seq<Handler>)
      requires coordinator.Valid() && (listener != null ==> listener.Valid())
      modifies coordinator, coordinator.locks.Values, ListenScope(listener)
      ensures coordinator.Valid() && (listener != null ==> listener.Valid())
      ensures var stops := Listened(old(Heard(listener)), incoming);
              && end == EndOf(setup, identity, stops, old(groups),
                              setup.Coordinatable?
                              && Held(old(LockStates(coordinator)), LockName(coordinator, setup.scope)),
                              old(identity.Some? && coordinator.IsRecorded(identity.value)))
              && ran == ReachedBy(end, stops, old(groups))
              && records == (if recording then RecordsOf(stops, end) else [])
      ensures end.Uncoordinated? <==> !setup.Coordinatable?
      ensures setup.Coordinatable? ==>
                var name := BuildKey(coordinator.updateName, setup.scope, LockSection);
                end.TimedOut? <==> old(name in coordinator.locks && coordinator.locks[name].locked)
      ensures end.Dropped? ==> identity.Some? && old(coordinator.IsRecorded(identity.value))
      ensures end.Processed? ==> identity.Some? && !old(coordinator.IsRecorded(identity.value))
      ensures end.IdentityRaised? ==> identity.None?
      ensures !end.Uncoordinated? && !end.Processed? ==> ran == [] && records == []
      ensures Heard(listener) == HeardAfter(end, old(Heard(listener)), incoming)
      ensures coordinator.handled == HandledAfter(coordinator, old(coordinator.handled), identity, end, ran)
      ensures var was := old(LockStates(coordinator));
              LockStates(coordinator) ==
              if !setup.Coordinatable? || end.TimedOut? then was
              else
                var name := LockName(coordinator, setup.scope);
                was[name := LockState(false, Releases(was, name) + 1)]
      ensures forall k :: k in old(coordinator.locks) ==>
                k in coordinator.locks && coordinator.locks[k] == old(coordinator.locks[k])
    {
      hide Heard, AfterListen;
      hide Listened, StopsAt, AnyClaims, Fold, AllReached, InnerEnd, InnerReached, UpdateListener.Valid;
      if setup.Coordinatable? {
        hide ListenScope, LockStates, HandledAfter, ReachedBy, RecordsOf, EndOf;
        end, records, ran :=
          HandleCoordinated(coordinator, setup.scope, identity, listener, incoming, recording, prompt);
      } else {
        var inner;
        inner, records, ran :=
          HandleGroups(listener, incoming, null, recording, prompt, Snapshot(NotClaimed, [], {}, map[]));
        end := Uncoordinated(inner);
      }
    }
  }

  lemma TimedOutDoesNothing(coordinator: MemoryUpdateCoordinator, handled: set<string>, identity: Option<UpdateKey>,
                            stops: bool, groups: seq<Group>, heard: Option<Local>, incoming: Incoming)
    requires heard.Some? ==> heard.value.Closed()
    ensures HeardAfter(TimedOut, heard, incoming) == heard
    ensures HandledAfter(coordinator, handled, identity, TimedOut, []) == handled
    ensures ReachedBy(TimedOut, stops, groups) == [] && RecordsOf(stops, TimedOut) == []
  {
  }

  lemma EndsByLock(scope: UpdateKey, identity: Option<UpdateKey>, stops: bool, groups: seq<Group>, recorded: bool)
    ensures EndOf(Coordinatable(scope), identity, stops, groups, true, recorded) == TimedOut
    ensures EndOf(Coordinatable(scope), identity, stops, groups, false, recorded)
            == HeldEnd(identity, stops, groups, recorded)
  {
  }

  lemma ScopesApart(release: CoordinatedRelease, listener: UpdateListener?)
    ensures release !in ListenScope(listener) && release.lock !in ListenScope(listener)
    ensures release.coordinator !in ListenScope(listener)
    ensures listener != null ==>
              release.lock != listener as object && release.coordinator != listener as object
              && release != listener as object
  {
  }

  lemma Apart(listener: UpdateListener?, lock: TimedLock)
    ensures lock !in ListenScope(listener)
  {
  }

  lemma StatesShow(coordinator: MemoryUpdateCoordinator)
    ensures forall k :: k in coordinator.locks ==>
              LockStates(coordinator)[k] == LockState(coordinator.locks[k].locked, coordinator.locks[k].releases)
  {
  }

  lemma OneLockMoved(coordinator: MemoryUpdateCoordinator, name: string, was: map<string, LockState>)
    requires name in coordinator.locks && was.Keys == coordinator.locks.Keys
    requires forall k :: k in coordinator.locks && k != name ==> LockShown(coordinator.locks[k]) == was[k]
    ensures LockStates(coordinator) == was[name := LockShown(coordinator.locks[name])]
  {
  }

  lemma StillHeld(was: map<string, LockState>, name: string)
    requires Held(was, name)
    ensures was[name := LockState(true, Releases(was, name))] == was
  {
  }

  lemma GivenBack(was: map<string, LockState>, name: string, releases: nat)
    ensures was[name := LockState(true, releases)][name := LockState(false, releases + 1)]
            == was[name := LockState(false, releases + 1)]
  {
  }

  lemma GroupOnward(group: Group, i: nat)
    requires i < |group|
    ensures Decider(group[i..]) == if Decides(group[i]) then Some(group[i]) else Decider(group[i + 1..])
    ensures Decides(group[i]) ==> Reached(group[i..]) == [group[i]]
    ensures !Decides(group[i]) ==>
              Reached(group[i..]) == (if Invoked(group[i]) then [group[i]] else []) + Reached(group[i + 1..])
    ensures Decides(group[i]) <==> Invoked(group[i]) && group[i].callback != Continues
    ensures Invoked(group[i]) <==> group[i].kind in {OfUpdateType, RawUpdate} && group[i].check == Passes
  {
    assert group[i..][0] == group[i] && group[i..][1..] == group[i + 1..];
  }

  lemma GroupOver(group: Group)
    ensures Decider(group[|group|..]) == None && Reached(group[|group|..]) == []
  {
  }

  lemma CountedNone(rest: LoopEnd)
    ensures Accumulate(0, 0, [], rest) == rest
  {
  }

  lemma CountedAll(handled: nat, raised: nat, successes: seq<Handler>)
    ensures Accumulate(handled, raised, successes, Completed(0, 0, [])) == Completed(handled, raised, successes)
  {
  }

  /** Counting one group on the way is counting it with the rest. */
  lemma Counted(handled: nat, raised: nat, successes: seq<Handler>, group: GroupEnd, rest: LoopEnd)
    ensures Accumulate(handled, raised, successes, Onward(group, rest)) ==
            match group
            case StoppedBy => Stopped
            case UnhandledBy => Unhandled
            case HandledBy(d) => Accumulate(handled + 1, raised, successes + [d], rest)
            case RaisedBy(_) => Accumulate(handled, raised + 1, successes, rest)
            case Passed => Accumulate(handled, raised, successes, rest)
  {
  }

  lemma LoopOver(groups: seq<Group>)
    ensures Fold(groups[|groups|..]) == Completed(0, 0, [])
    ensures AllReached(groups[|groups|..]) == []
  {
  }

  lemma NoneClaims()
    ensures !AnyClaims([])
  {
  }
}
