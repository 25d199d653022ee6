/** The Redis protocol one command at a time, with the chat lock as explicit state that processes
    may or may not hold (pyroflow/listener_coordinator/redis_listener_coordinator.py). */
module TokenSafety {
  import opened Wrappers
  import opened ListenerKeys
  import opened ListenerSteps

  /** Which session drew a token, and for which key. */
  datatype Mint = Mint(sid: nat, key: ListenerKey)

  /** An invalidated registration: published to session `sid`, or not yet published. */
  datatype Notice = Notice(sid: nat, key: ListenerKey, token: Token)

  /** A process that has read its own token back and is about to hand its update over; it gives the
      check up as soon as it issues another command on the registry. */
  datatype Check = Check(sid: nat, key: ListenerKey, token: Token)

  /** A delivery, with what the registry held for the key at that moment. */
  datatype Handover = Handover(check: Check, registered: Option<Token>)

  datatype State = State(
    registry: Registry,
    minted: map<Token, Mint>,
    unpublished: set<Signal>,
    notices: set<Notice>,
    stored: map<Token, bool>,          // tokens with a stored listener, and whether it is still pending
    locks: map<int, nat>,              // chat id to holding process
    checks: map<nat, Check>,           // process to the check it relies on
    stopped: set<nat>,                 // sessions whose coordinator was stopped
    handovers: seq<Handover>)

  datatype Command =
    | Lock(p: nat, chat: int)
    | Unlock(p: nat, chat: int)
    | SetNx(p: nat, sid: nat, key: ListenerKey, token: Token)
    | Store(token: Token)
    | GetDel(p: nat, key: ListenerKey)
    | Publish(signal: Signal, sids: set<nat>)
    | Del(p: nat, key: ListenerKey)
    | LuaUnregister(p: nat, key: ListenerKey, token: Token)
    | LuaBulkUnregister(sid: nat, owned: map<ListenerKey, Token>)
    | Apply(notice: Notice)
    | Lose(notice: Notice)
    | Complete(token: Token)
    | GetOwn(p: nat, sid: nat, token: Token)
    | Deliver(p: nat)

  predicate Init(s: State) {
    s == State(map[], map[], {}, {}, map[], map[], map[], {}, [])
  }

  predicate Holds(s: State, p: nat, key: ListenerKey) {
    Lookup(s.locks, key.chatId) == Some(p)
  }

  predicate Minted(s: State, key: ListenerKey, token: Token) {
    token in s.minted && s.minted[token].key == key
  }

  /** With `honoured`, commands on a key come only from the process holding its chat lock; a lock
      that expired under its holder is the case `!honoured`. `stop` never takes the lock. */
  predicate Enabled(s: State, c: Command, honoured: bool) {
    match c
    case Lock(_, chat) => chat !in s.locks
    case Unlock(p, chat) => Lookup(s.locks, chat) == Some(p)
    case SetNx(p, _, key, token) => token !in s.minted && (honoured ==> Holds(s, p, key))
    case Store(token) => token in s.minted && token !in s.stored
    case GetDel(p, key) => honoured ==> Holds(s, p, key)
    case Publish(signal, _) => signal in s.unpublished
    case Del(p, key) => honoured ==> Holds(s, p, key)
    case LuaUnregister(p, key, _) => honoured ==> Holds(s, p, key)
    case LuaBulkUnregister(sid, owned) =>
      forall k :: k in owned ==> owned[k] in s.minted && s.minted[owned[k]].sid == sid
    case Apply(notice) => notice in s.notices
    case Lose(notice) => notice in s.notices
    case Complete(_) => true
    case GetOwn(p, sid, token) =>
      token in s.minted && s.minted[token].sid == sid && token in s.stored
      && Lookup(s.registry, s.minted[token].key) == Some(token)
      && (honoured ==> Holds(s, p, s.minted[token].key))
    case Deliver(p) => p in s.checks
  }

  function Step(s: State, c: Command): State
    requires Enabled(s, c, false)
  {
    match c
    case Lock(p, chat) => s.(locks := s.locks[chat := p])
    case Unlock(p, chat) =>
      s.(locks := s.locks - {chat},
         checks := map q | q in s.checks && !(q == p && s.checks[q].key.chatId == chat) :: s.checks[q])
    case SetNx(p, sid, key, token) =>
      s.(minted := s.minted[token := Mint(sid, key)],
         registry := if key in s.registry then s.registry else s.registry[key := token],
         checks := s.checks - {p})
    case Store(token) => s.(stored := s.stored[token := true])
    case GetDel(p, key) =>
      var next := s.(checks := s.checks - {p});
      if key in s.registry then
        next.(registry := s.registry - {key}, unpublished := s.unpublished + {Signal(key, s.registry[key])})
      else next
    case Publish(signal, sids) =>
      s.(unpublished := s.unpublished - {signal},
         notices := s.notices + set j | j in sids :: Notice(j, signal.key, signal.token))
    case Del(p, key) => s.(registry := s.registry - {key}, checks := s.checks - {p})
    case LuaUnregister(p, key, token) =>
      s.(registry := DropEntry(s.registry, key, token), checks := s.checks - {p})
    case LuaBulkUnregister(sid, owned) =>
      s.(registry := BulkUnregister(s.registry, owned), stopped := s.stopped + {sid})
    case Apply(notice) =>
      s.(notices := s.notices - {notice},
         stored := if notice.token in s.minted && s.minted[notice.token] == Mint(notice.sid, notice.key)
                      && notice.token in s.stored
                   then s.stored[notice.token := false] else s.stored)
    case Lose(notice) => s.(notices := s.notices - {notice})
    case Complete(token) => if token in s.stored then s.(stored := s.stored[token := false]) else s
    case GetOwn(p, sid, token) => s.(checks := s.checks[p := Check(sid, s.minted[token].key, token)])
    case Deliver(p) =>
      var check := s.checks[p];
      var done := s.(checks := s.checks - {p});
      if check.token in s.stored && s.stored[check.token] then
        done.(stored := s.stored[check.token := false],
              handovers := s.handovers + [Handover(check, Lookup(s.registry, check.key))])
      else done
  }

  ghost predicate Run(states: seq<State>, commands: seq<Command>, honoured: bool) {
    && |states| == |commands| + 1
    && Init(states[0])
    && forall n :: 0 <= n < |commands| ==>
         && Enabled(states[n], commands[n], honoured)
         && Enabled(states[n], commands[n], false)
         && states[n + 1] == Step(states[n], commands[n])
  }

  // ---------------------------------------------------------------- no signal names a live token

  /** A token that was drawn for a key and is not registered under it. */
  ghost predicate Dead(s: State, key: ListenerKey, token: Token) {
    Minted(s, key, token) && Lookup(s.registry, key) != Some(token)
  }

  /** Registered tokens were drawn for their key, and everything published or about to be is dead. */
  ghost predicate Inv(s: State) {
    && (forall k :: k in s.registry ==> Minted(s, k, s.registry[k]))
    && (forall g :: g in s.unpublished ==> Dead(s, g.key, g.token))
    && (forall g :: g in s.notices ==> Dead(s, g.key, g.token))
  }

  lemma StaysDead(s: State, c: Command, key: ListenerKey, token: Token)
    requires Enabled(s, c, false) && Dead(s, key, token)
    ensures Dead(Step(s, c), key, token)
  {
  }

  lemma RegistryStaysMinted(s: State, c: Command, k: ListenerKey)
    requires Enabled(s, c, false) && k in Step(s, c).registry
    requires k in s.registry ==> Minted(s, k, s.registry[k])
    ensures Minted(Step(s, c), k, Step(s, c).registry[k])
  {
  }

  lemma StepKeeps(s: State, c: Command)
    requires Inv(s) && Enabled(s, c, false)
    ensures Inv(Step(s, c))
  {
    var n := Step(s, c);
    forall k | k in n.registry ensures Minted(n, k, n.registry[k]) {
      RegistryStaysMinted(s, c, k);
    }
    forall g | g in n.unpublished ensures Dead(n, g.key, g.token) {
      if g in s.unpublished { StaysDead(s, c, g.key, g.token); }
    }
    forall g | g in n.notices ensures Dead(n, g.key, g.token) {
      if g in s.notices {
        StaysDead(s, c, g.key, g.token);
      } else {
        assert c.Publish? && g.key == c.signal.key && g.token == c.signal.token;
        StaysDead(s, c, g.key, g.token);
      }
    }
  }

  /** Even without the chat lock: whatever the order of commands, a signal never names a token that
      is in the registry, then or later. */
  lemma {:induction false} SignalsNameDeadTokens(states: seq<State>, commands: seq<Command>, honoured: bool, n: nat)
    requires Run(states, commands, honoured) && n < |states|
    ensures Inv(states[n])
  {
    if n > 0 {
      SignalsNameDeadTokens(states, commands, honoured, n - 1);
      StepKeeps(states[n - 1], commands[n - 1]);
      assert states[n - 1 + 1] == Step(states[n - 1], commands[n - 1]);
    }
  }

  /** So applying a signal, at any time and in any order, leaves every registered listener as it was. */
  lemma ApplySparesOwners(states: seq<State>, commands: seq<Command>, honoured: bool, n: nat, k: ListenerKey)
    requires Run(states, commands, honoured) && n < |commands| && commands[n].Apply?
    requires k in states[n].registry
    ensures Lookup(states[n + 1].registry, k) == Some(states[n].registry[k])
    ensures Lookup(states[n + 1].stored, states[n].registry[k]) == Lookup(states[n].stored, states[n].registry[k])
  {
    SignalsNameDeadTokens(states, commands, honoured, n);
    assert states[n + 1] == Step(states[n], commands[n]);
    assert Minted(states[n], k, states[n].registry[k]);
  }

  /** A token leaves the registry for good. */
  lemma {:induction false} DeadStaysDead(states: seq<State>, commands: seq<Command>, honoured: bool, m: nat, n: nat,
                                         key: ListenerKey, token: Token)
    requires Run(states, commands, honoured) && m <= n < |states| && Dead(states[m], key, token)
    ensures Dead(states[n], key, token)
  {
    hide Step, Enabled, Dead;
    if m < n {
      DeadStaysDead(states, commands, honoured, m, n - 1, key, token);
      assert states[n - 1 + 1] == Step(states[n - 1], commands[n - 1]);
      StaysDead(states[n - 1], commands[n - 1], key, token);
    }
  }

  // ---------------------------------------------------------------- the fence, with the lock honoured

  /** A process between its check and its delivery holds the chat lock, and the registry still maps
      the key to its token unless its own session was stopped meanwhile. */
  ghost predicate CheckOk(s: State, p: nat, c: Check) {
    && Holds(s, p, c.key) && Minted(s, c.key, c.token) && s.minted[c.token].sid == c.sid
    && (Lookup(s.registry, c.key) == Some(c.token) || (c.key !in s.registry && c.sid in s.stopped))
  }

  /** At the moment of delivery the key was registered to this token, or to nobody after a stop. */
  ghost predicate Fenced(s: State, h: Handover) {
    && Minted(s, h.check.key, h.check.token) && s.minted[h.check.token].sid == h.check.sid
    && (h.registered == Some(h.check.token) || (h.registered == None && h.check.sid in s.stopped))
  }

  ghost predicate FenceInv(s: State) {
    && (forall p :: p in s.checks ==> CheckOk(s, p, s.checks[p]))
    && (forall h :: h in s.handovers ==> Fenced(s, h))
  }

  /** What a check relies on, told apart from the rest of the state. */
  lemma CheckCarries(s: State, n: State, p: nat, c: Check)
    requires CheckOk(s, p, c) && Holds(n, p, c.key)
    requires Lookup(n.minted, c.token) == Lookup(s.minted, c.token) && s.stopped <= n.stopped
    requires Lookup(n.registry, c.key) == Lookup(s.registry, c.key) || (c.key !in n.registry && c.sid in n.stopped)
    ensures CheckOk(n, p, c)
  {
  }

  /** Only the holder of the chat lock issues commands on the key, and by doing so gives up its check. */
  lemma OthersKeepOut(s: State, c: Command, p: nat)
    requires Enabled(s, c, true) && p in s.checks && Holds(s, p, s.checks[p].key) && p in Step(s, c).checks
    requires !c.LuaBulkUnregister? && !(c.GetOwn? && c.p == p)
    ensures Step(s, c).checks[p] == s.checks[p] && Holds(Step(s, c), p, s.checks[p].key)
    ensures Lookup(Step(s, c).registry, s.checks[p].key) == Lookup(s.registry, s.checks[p].key)
    ensures Step(s, c).stopped == s.stopped
    ensures s.checks[p].token in s.minted ==>
              Lookup(Step(s, c).minted, s.checks[p].token) == Lookup(s.minted, s.checks[p].token)
  {
    OthersKeepEntry(s, c, p);
    OthersKeepTokens(s, c, s.checks[p].token);
    hide BulkUnregister, DropEntry;
  }

  lemma OthersKeepTokens(s: State, c: Command, token: Token)
    requires Enabled(s, c, true) && !c.LuaBulkUnregister?
    ensures Step(s, c).stopped == s.stopped
    ensures token in s.minted ==> Lookup(Step(s, c).minted, token) == Lookup(s.minted, token)
  {
    hide BulkUnregister, DropEntry;
  }

  lemma OthersKeepEntry(s: State, c: Command, p: nat)
    requires Enabled(s, c, true) && p in s.checks && Holds(s, p, s.checks[p].key) && p in Step(s, c).checks
    requires !c.LuaBulkUnregister?
    ensures Lookup(Step(s, c).registry, s.checks[p].key) == Lookup(s.registry, s.checks[p].key)
  {
    hide BulkUnregister, DropEntry;
    if c.LuaUnregister? {
      DropsOnly(s.registry, c.key, c.token, s.checks[p].key);
    }
  }

  lemma DropsOnly(m: map<ListenerKey, Token>, key: ListenerKey, token: Token, other: ListenerKey)
    requires other != key
    ensures Lookup(DropEntry(m, key, token), other) == Lookup(m, other)
  {
  }

  /** A session's stop removes no entry but its own. */
  lemma StopSparesOthers(s: State, c: Command, p: nat)
    requires c.LuaBulkUnregister? && Enabled(s, c, false) && p in s.checks && CheckOk(s, p, s.checks[p])
    ensures CheckOk(Step(s, c), p, s.checks[p])
  {
    var n, check := Step(s, c), s.checks[p];
    if Lookup(n.registry, check.key) != Lookup(s.registry, check.key) {
      assert check.key in c.owned && c.owned[check.key] == check.token;
    }
  }

  lemma CheckKeeps(s: State, c: Command, p: nat)
    requires Enabled(s, c, true) && Enabled(s, c, false) && p in Step(s, c).checks
    requires p in s.checks ==> CheckOk(s, p, s.checks[p])
    ensures CheckOk(Step(s, c), p, Step(s, c).checks[p])
  {
    if !(c.GetOwn? && c.p == p) {
      assert p in s.checks;
      if c.LuaBulkUnregister? {
        StopSparesOthers(s, c, p);
      } else {
        OthersKeepOut(s, c, p);
        hide Step, Enabled;
        CheckCarries(s, Step(s, c), p, s.checks[p]);
      }
    }
  }

  lemma FencedKeeps(s: State, c: Command, h: Handover)
    requires Enabled(s, c, false) && Fenced(s, h)
    ensures Fenced(Step(s, c), h)
  {
  }

  lemma FenceKeeps(s: State, c: Command)
    requires FenceInv(s) && Enabled(s, c, true) && Enabled(s, c, false)
    ensures FenceInv(Step(s, c))
  {
    var n := Step(s, c);
    forall p | p in n.checks ensures CheckOk(n, p, n.checks[p]) {
      CheckKeeps(s, c, p);
    }
    forall h | h in n.handovers ensures Fenced(n, h) {
      if h in s.handovers {
        FencedKeeps(s, c, h);
      } else {
        assert c.Deliver? && CheckOk(s, c.p, s.checks[c.p]);
      }
    }
  }

  /** With one command per step and the lock honoured, every delivery is fenced: no other session's
      token is ever registered under the key at that moment. */
  lemma {:induction false} LockedDeliveryIsFenced(states: seq<State>, commands: seq<Command>, n: nat)
    requires Run(states, commands, true) && n < |states|
    ensures FenceInv(states[n])
  {
    if n > 0 {
      LockedDeliveryIsFenced(states, commands, n - 1);
      FenceKeeps(states[n - 1], commands[n - 1]);
      assert states[n - 1 + 1] == Step(states[n - 1], commands[n - 1]);
    }
  }

  /** Two processes are never both between check and delivery for one key. */
  lemma OneCheckerPerKey(states: seq<State>, commands: seq<Command>, n: nat, p: nat, q: nat)
    requires Run(states, commands, true) && n < |states|
    requires p in states[n].checks && q in states[n].checks
    requires states[n].checks[p].key == states[n].checks[q].key
    ensures p == q
  {
    LockedDeliveryIsFenced(states, commands, n);
  }

  // ---------------------------------------------------------------- the fence needs the lock

  /** The lock of `p` lapses: another process takes the key over for session `sid`, and `p` delivers. */
  function LapsedCommands(p: nat, key: ListenerKey, q: nat, sid: nat, token: Token): seq<Command> {
    [GetDel(q, key), SetNx(q, sid, key, token), Deliver(p)]
  }

  lemma TakesOver(s: State, p: nat, q: nat, sid: nat, token: Token) returns (taken: State)
    requires p in s.checks && p != q && token !in s.minted
    ensures Enabled(s, GetDel(q, s.checks[p].key), false)
    ensures Enabled(Step(s, GetDel(q, s.checks[p].key)), SetNx(q, sid, s.checks[p].key, token), false)
    ensures taken == Step(Step(s, GetDel(q, s.checks[p].key)), SetNx(q, sid, s.checks[p].key, token))
    ensures p in taken.checks && taken.checks[p] == s.checks[p] && taken.stored == s.stored
    ensures Lookup(taken.registry, s.checks[p].key) == Some(token) && token in taken.minted
    ensures taken.minted[token] == Mint(sid, s.checks[p].key) && taken.handovers == s.handovers
  {
    taken := Step(Step(s, GetDel(q, s.checks[p].key)), SetNx(q, sid, s.checks[p].key, token));
  }

  /** Without the lock the fence fails wherever a process has checked and not yet delivered: its update
      can be handed to its own session while any other is registered. */
  lemma LapsedLockBreaksFence(s: State, p: nat, q: nat, sid: nat, token: Token) returns (states: seq<State>)
    requires p in s.checks && p != q && token !in s.minted
    requires s.checks[p].token in s.minted && Lookup(s.stored, s.checks[p].token) == Some(true)
    ensures Path(states, LapsedCommands(p, s.checks[p].key, q, sid, token)) && states[0] == s
    ensures states[3].handovers == s.handovers + [Handover(s.checks[p], Some(token))]
    ensures !Fenced(states[3], Handover(s.checks[p], Some(token)))
    ensures token in states[3].minted && states[3].minted[token] == Mint(sid, s.checks[p].key)
  {
    var taken := TakesOver(s, p, q, sid, token);
    var done := Step(taken, Deliver(p));
    var deleted := Step(s, GetDel(q, s.checks[p].key));
    states := [s, deleted, taken, done];
    hide Step, Enabled;
  }

  ghost predicate Path(states: seq<State>, commands: seq<Command>) {
    && |states| == |commands| + 1
    && forall n :: 0 <= n < |commands| ==>
         Enabled(states[n], commands[n], false) && states[n + 1] == Step(states[n], commands[n])
  }
}
