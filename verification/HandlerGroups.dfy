/** Which handlers an update reaches, and with what result (pyroflow/dispatcher.py, `_handle_update`).
    A handler is described by what it would do with the update at hand. */
module HandlerGroups {
  import opened Wrappers

  datatype Kind = ErrorHandling | OfUpdateType | RawUpdate | OtherType

  datatype CheckResult = Passes | Rejects | CheckRaises

  /** How a callback ends: the three propagation signals are exceptions of their own. */
  datatype CallbackEnd = Returns | Raises | Continues | Stops | Unhandles

  datatype Handler = Handler(name: nat, kind: Kind, check: CheckResult, callback: CallbackEnd, claims: bool)

  type Group = seq<Handler>

  /** The handler's callback is invoked if the loop gets to it. */
  predicate Invoked(h: Handler) {
    h.kind in {OfUpdateType, RawUpdate} && h.check == Passes
  }

  /** Invoked, and not passing the update on to the next handler of its group. */
  predicate Decides(h: Handler) {
    Invoked(h) && h.callback != Continues
  }

  /** The first deciding handler of a group. */
  function Decider(group: Group): (d: Option<Handler>)
    ensures d.Some? ==> d.value in group && Decides(d.value)
    ensures d.None? <==> forall h :: h in group ==> !Decides(h)
  {
    if |group| == 0 then None
    else if Decides(group[0]) then Some(group[0])
    else Decider(group[1..])
  }

  /** The handlers of a group that are invoked: the invocable ones up to the decider. */
  function Reached(group: Group): seq<Handler> {
    if |group| == 0 then []
    else if Decides(group[0]) then [group[0]]
    else (if Invoked(group[0]) then [group[0]] else []) + Reached(group[1..])
  }

  datatype LoopEnd = Completed(handled: nat, raised: nat, successes: seq<Handler>) | Stopped | Unhandled

  /** The group loop, as a fold over the groups' deciders. */
  function Fold(groups: seq<Group>): LoopEnd {
    if |groups| == 0 then Completed(0, 0, [])
    else
      match Decider(groups[0])
      case None => Fold(groups[1..])
      case Some(d) =>
        if d.callback == Stops then Stopped
        else if d.callback == Unhandles then Unhandled
        else
          match Fold(groups[1..])
          case Completed(handled, raised, successes) =>
            if d.callback == Returns then Completed(handled + 1, raised, [d] + successes)
            else Completed(handled, raised + 1, successes)
          case end => end
  }

  /** Every handler the loop invokes, in order. */
  function AllReached(groups: seq<Group>): seq<Handler> {
    if |groups| == 0 then []
    else
      var d := Decider(groups[0]);
      Reached(groups[0]) +
      if d.Some? && d.value.callback in {Stops, Unhandles} then [] else AllReached(groups[1..])
  }

  // ---------------------------------------------------------------- what the fold says

  /** The deciders of the groups, in order. */
  function Deciders(groups: seq<Group>): seq<Handler> {
    if |groups| == 0 then []
    else (match Decider(groups[0]) case Some(d) => [d] case None => []) + Deciders(groups[1..])
  }

  /** Those that end so, in order. */
  function Ending(hs: seq<Handler>, end: CallbackEnd): seq<Handler> {
    if |hs| == 0 then [] else (if hs[0].callback == end then [hs[0]] else []) + Ending(hs[1..], end)
  }

  lemma {:induction false} EndingJoins(a: seq<Handler>, b: seq<Handler>, end: CallbackEnd)
    ensures Ending(a + b, end) == Ending(a, end) + Ending(b, end)
  {
    if |a| == 0 {
      assert a + b == b;
    } else {
      assert (a + b)[0] == a[0] && (a + b)[1..] == a[1..] + b;
      EndingJoins(a[1..], b, end);
    }
  }

  ghost predicate Propagates(groups: seq<Group>) {
    exists d :: d in Deciders(groups) && d.callback in {Stops, Unhandles}
  }

  /** The loop completes exactly when no decider raises a propagation signal; it then counts the
      deciders that returned and those that raised, and its successes are the former, in group order. */
  lemma {:induction false} FoldMeaning(groups: seq<Group>)
    ensures Fold(groups).Completed? <==> !Propagates(groups)
    ensures Fold(groups).Completed? ==>
              && Fold(groups).successes == Ending(Deciders(groups), Returns)
              && Fold(groups).handled == |Ending(Deciders(groups), Returns)|
              && Fold(groups).raised == |Ending(Deciders(groups), Raises)|
              && Fold(groups).handled + Fold(groups).raised == |Deciders(groups)| <= |groups|
  {
    if |groups| > 0 {
      var rest := Deciders(groups[1..]);
      FoldMeaning(groups[1..]);
      match Decider(groups[0])
      case None => assert Deciders(groups) == rest;
      case Some(d) =>
        assert Deciders(groups) == [d] + rest && Deciders(groups)[1..] == rest;
        assert forall h :: h in Deciders(groups) <==> h == d || h in rest;
        assert Propagates(groups) <==> d.callback in {Stops, Unhandles} || Propagates(groups[1..]);
    }
  }

  /** The first signalling decider ends the loop, and says how. */
  lemma {:induction false} FirstSignalWins(groups: seq<Group>, i: nat)
    requires i < |groups| && Decider(groups[i]).Some?
    requires Decider(groups[i]).value.callback in {Stops, Unhandles}
    requires !Propagates(groups[..i])
    ensures Fold(groups) == if Decider(groups[i]).value.callback == Stops then Stopped else Unhandled
  {
    if i > 0 {
      assert groups[..i][0] == groups[0] && groups[..i][1..] == groups[1..][..i - 1];
      FoldMeaning(groups[..i]);
      FoldMeaning(groups[1..][..i - 1]);
      FirstSignalWins(groups[1..], i - 1);
    }
  }

  // ---------------------------------------------------------------- the same in the handlers' own terms

  /** A group's decider is its first handler of the update's type, or raw, whose check passes and whose
      callback does not pass the update on. */
  lemma {:induction false} DeciderExactly(group: Group) returns (n: nat)
    ensures n <= |group| && Decider(group) == (if n < |group| then Some(group[n]) else None)
    ensures n < |group| ==>
              group[n].kind in {OfUpdateType, RawUpdate} && group[n].check == Passes && group[n].callback != Continues
    ensures forall i :: 0 <= i < n && group[i].kind in {OfUpdateType, RawUpdate} && group[i].check == Passes ==>
              group[i].callback == Continues
  {
    if |group| == 0 || Decides(group[0]) {
      n := 0;
    } else {
      n := DeciderExactly(group[1..]);
      n := n + 1;
    }
  }

  /** Reached are, in the group's order, exactly the handlers of the update's type, or raw, whose check
      passes and that come after no such handler that keeps the update. `at` says where they stand. */
  lemma {:induction false} ReachedExactly(group: Group) returns (at: seq<nat>)
    ensures |at| == |Reached(group)| && forall m, n :: 0 <= m < n < |at| ==> at[m] < at[n]
    ensures forall n :: 0 <= n < |at| ==> at[n] < |group| && Reached(group)[n] == group[at[n]]
    ensures forall j :: 0 <= j < |group| ==>
              (j in at <==>
               && group[j].kind in {OfUpdateType, RawUpdate} && group[j].check == Passes
               && forall i :: 0 <= i < j && group[i].kind in {OfUpdateType, RawUpdate} && group[i].check == Passes ==>
                    group[i].callback == Continues)
    decreases |group|
  {
    if |group| == 0 {
      at := [];
    } else {
      var front, last := group[..|group| - 1], group[|group| - 1];
      at := ReachedExactly(front);
      ReachedGrows(front, last);
      assert group == front + [last];
      var n := DeciderExactly(front);
      if Decider(front).None? && Invoked(last) {
        at := at + [|front|];
      }
    }
  }

  /** One more handler at the end of a group. */
  lemma {:induction false} ReachedGrows(group: Group, h: Handler)
    ensures Reached(group + [h]) == Reached(group) + (if Decider(group).None? && Invoked(h) then [h] else [])
  {
    var longer := group + [h];
    assert longer[0] == if |group| > 0 then group[0] else h;
    if |group| > 0 {
      assert longer[1..] == group[1..] + [h];
      if !Decides(group[0]) {
        ReachedGrows(group[1..], h);
      }
    }
  }

  /** The loop goes through the groups in order and leaves off after the first whose decider signals. */
  lemma {:induction false} EnteredExactly(groups: seq<Group>) returns (n: nat)
    ensures n <= |groups| && AllReached(groups) == Flat(seq(n, i requires 0 <= i < n => Reached(groups[i])))
    ensures forall i :: 0 <= i < n - 1 && Decider(groups[i]).Some? ==>
              Decider(groups[i]).value.callback !in {Stops, Unhandles}
    ensures n < |groups| ==>
              n > 0 && Decider(groups[n - 1]).Some? && Decider(groups[n - 1]).value.callback in {Stops, Unhandles}
    decreases |groups|
  {
    if |groups| == 0 {
      n := 0;
    } else {
      var d := Decider(groups[0]);
      var rest := [];
      if d.Some? && d.value.callback in {Stops, Unhandles} {
        n := 1;
      } else {
        n := EnteredExactly(groups[1..]);
        rest := seq(n, i requires 0 <= i < n => Reached(groups[1..][i]));
        n := n + 1;
      }
      FlatStarts(Reached(groups[0]), rest);
      assert seq(n, i requires 0 <= i < n => Reached(groups[i])) == [Reached(groups[0])] + rest;
    }
  }

  predicate Signals(group: Group) {
    Decider(group).Some? && Decider(group).value.callback in {Stops, Unhandles}
  }

  lemma {:induction false} ReachedEnds(group: Group, end: CallbackEnd)
    requires end != Continues
    ensures Ending(Reached(group), end) ==
            match Decider(group)
            case Some(d) => if d.callback == end then [d] else []
            case None => []
  {
    if |group| > 0 && !Decides(group[0]) {
      ReachedEnds(group[1..], end);
      EndingJoins(if Invoked(group[0]) then [group[0]] else [], Reached(group[1..]), end);
    }
  }

  /** The end that is written in what was reached. */
  function Closing(ran: seq<Handler>): LoopEnd {
    if ran != [] && ran[|ran| - 1].callback == Stops then Stopped
    else if ran != [] && ran[|ran| - 1].callback == Unhandles then Unhandled
    else Completed(|Ending(ran, Returns)|, |Ending(ran, Raises)|, Ending(ran, Returns))
  }

  lemma ClosingJoins(a: seq<Handler>, b: seq<Handler>)
    requires a != [] ==> a[|a| - 1].callback !in {Stops, Unhandles}
    ensures Closing(a + b) ==
            match Closing(b)
            case Completed(h, r, s) =>
              Completed(|Ending(a, Returns)| + h, |Ending(a, Raises)| + r, Ending(a, Returns) + s)
            case end => end
  {
    hide Ending;
    EndingJoins(a, b, Returns);
    EndingJoins(a, b, Raises);
    if b == [] {
      assert a + b == a;
    } else {
      assert (a + b)[|a + b| - 1] == b[|b| - 1];
    }
  }

  /** How the loop ended is written in what it reached: a signal, if the last handler reached gave one;
      else the handlers that returned, and how many returned and raised. */
  lemma EndIsReached(groups: seq<Group>)
    ensures var ran := AllReached(groups);
            Fold(groups) ==
            if ran != [] && ran[|ran| - 1].callback == Stops then Stopped
            else if ran != [] && ran[|ran| - 1].callback == Unhandles then Unhandled
            else Completed(|Ending(ran, Returns)|, |Ending(ran, Raises)|, Ending(ran, Returns))
  {
    assert Fold(groups) == Closing(AllReached(groups)) by {
      EndIsClosing(groups);
    }
  }

  lemma {:induction false} EndIsClosing(groups: seq<Group>)
    ensures Fold(groups) == Closing(AllReached(groups))
  {
    if |groups| > 0 {
      if Signals(groups[0]) {
        SignalEnds(groups);
      } else {
        hide Ending, Reached, AllReached, Fold, Signals;
        LoopGoesOn(groups);
        NoSignalLast(groups[0]);
        EndIsClosing(groups[1..]);
        ClosingJoins(Reached(groups[0]), AllReached(groups[1..]));
      }
    }
  }

  lemma SignalEnds(groups: seq<Group>)
    requires |groups| > 0 && Signals(groups[0])
    ensures var ran := AllReached(groups);
            && ran != [] && ran[|ran| - 1].callback in {Stops, Unhandles}
            && Fold(groups) == if ran[|ran| - 1].callback == Stops then Stopped else Unhandled
  {
    ReachedUpToDecider(groups[0]);
  }

  /** A group that does not signal adds its decider, if it has one, to what the rest of the loop counts. */
  lemma LoopGoesOn(groups: seq<Group>)
    requires |groups| > 0 && !Signals(groups[0])
    ensures AllReached(groups) == Reached(groups[0]) + AllReached(groups[1..])
    ensures var returned, raised := Ending(Reached(groups[0]), Returns), Ending(Reached(groups[0]), Raises);
            Fold(groups) ==
            match Fold(groups[1..])
            case Completed(h, r, s) => Completed(|returned| + h, |raised| + r, returned + s)
            case end => end
  {
    hide Reached, Ending, Decider, Decides;
    ReachedEnds(groups[0], Returns);
    ReachedEnds(groups[0], Raises);
    if Decider(groups[0]).Some? && Fold(groups[1..]).Completed? {
      assert Decider(groups[0]).value.callback in {Returns, Raises} by { DeciderKeeps(groups[0]); }
    }
  }

  lemma DeciderKeeps(group: Group)
    requires Decider(group).Some?
    ensures Decider(group).value.callback != Continues
  {
  }

  lemma {:induction false} NoSignalLast(group: Group)
    requires !Signals(group)
    ensures Reached(group) != [] ==> Reached(group)[|Reached(group)| - 1].callback !in {Stops, Unhandles}
  {
    if |group| > 0 && !Decides(group[0]) {
      NoSignalLast(group[1..]);
    }
  }

  /** Every decider of a group that is reached was invoked, and nothing after it. */
  lemma {:induction false} ReachedUpToDecider(group: Group)
    ensures forall h :: h in Reached(group) ==> h in group && h.kind in {OfUpdateType, RawUpdate} && h.check == Passes
    ensures forall i :: 0 <= i < |Reached(group)| - 1 ==> Reached(group)[i].callback == Continues
    ensures Decider(group).Some? ==>
              |Reached(group)| > 0 && Reached(group)[|Reached(group)| - 1] == Decider(group).value
  {
    if |group| > 0 && !Decides(group[0]) {
      ReachedUpToDecider(group[1..]);
    }
  }

  // ---------------------------------------------------------------- what counts as handled

  /** `handled`, as `handle_update` works it out from how the loop ended. */
  predicate CountsAsHandled(end: LoopEnd) {
    end.Stopped? || (end.Completed? && end.handled + end.raised >= 1)
  }

  /** The first propagation signal among the deciders. */
  function FirstSignal(deciders: seq<Handler>): (end: Option<CallbackEnd>)
    ensures end.None? <==> forall h :: h in deciders ==> h.callback !in {Stops, Unhandles}
    ensures end.Some? ==> end.value in {Stops, Unhandles} && exists h :: h in deciders && h.callback == end.value
  {
    if |deciders| == 0 then None
    else if deciders[0].callback in {Stops, Unhandles} then Some(deciders[0].callback)
    else FirstSignal(deciders[1..])
  }

  /** An update counts as handled exactly when some group decides it and the first decider to signal,
      if any does, stops propagation. */
  lemma {:induction false} CountsExactly(groups: seq<Group>)
    ensures CountsAsHandled(Fold(groups)) <==>
              Deciders(groups) != [] && FirstSignal(Deciders(groups)) != Some(Unhandles)
    ensures Fold(groups).Unhandled? <==> FirstSignal(Deciders(groups)) == Some(Unhandles)
    ensures Fold(groups).Stopped? <==> FirstSignal(Deciders(groups)) == Some(Stops)
  {
    if |groups| > 0 {
      var rest := Deciders(groups[1..]);
      CountsExactly(groups[1..]);
      match Decider(groups[0])
      case None => assert Deciders(groups) == rest;
      case Some(d) => assert Deciders(groups) == [d] + rest && Deciders(groups)[1..] == rest;
    }
  }

  /** A handler that was reached and returned, raised or stopped propagation. */
  ghost predicate SomeActed(groups: seq<Group>) {
    exists h :: h in AllReached(groups) && h.callback in {Returns, Raises, Stops}
  }

  lemma {:induction false} ReachedActs(group: Group)
    ensures (exists h :: h in Reached(group) && h.callback in {Returns, Raises, Stops})
            <==> Decider(group).Some? && Decider(group).value.callback != Unhandles
  {
    if |group| > 0 {
      ReachedActs(group[1..]);
      if !Decides(group[0]) && Invoked(group[0]) {
        assert forall h :: h in Reached(group) <==> h == group[0] || h in Reached(group[1..]);
      } else if Decides(group[0]) {
        assert group[0] in Reached(group);
      }
    }
  }

  lemma {:induction false} ActedDecides(groups: seq<Group>)
    ensures SomeActed(groups) <==> Deciders(groups) != [] && Deciders(groups)[0].callback != Unhandles
  {
    if |groups| > 0 {
      var d, reached := Decider(groups[0]), Reached(groups[0]);
      ReachedActs(groups[0]);
      ActedDecides(groups[1..]);
      assert forall h :: h in AllReached(groups) <==>
               h in reached || (!(d.Some? && d.value.callback in {Stops, Unhandles}) && h in AllReached(groups[1..]));
    }
  }

  lemma {:induction false} ReachedNone(groups: seq<Group>)
    requires AllReached(groups) == []
    ensures Deciders(groups) == []
  {
    if |groups| > 0 {
      ReachedUpToDecider(groups[0]);
      ReachedNone(groups[1..]);
    }
  }

  /** The documented rule is that an update is recorded when at least one handler ran. It holds exactly
      unless one ran and either none decided, all that ran having passed the update on, or the first signal
      is an unhandled update. Whatever is recorded was given to a handler. */
  lemma RanExactly(groups: seq<Group>)
    ensures (CountsAsHandled(Fold(groups)) <==> AllReached(groups) != [])
            <==> !(AllReached(groups) != []
                   && (Deciders(groups) == [] || FirstSignal(Deciders(groups)) == Some(Unhandles)))
    ensures CountsAsHandled(Fold(groups)) ==> AllReached(groups) != []
  {
    CountsExactly(groups);
    if AllReached(groups) == [] {
      ReachedNone(groups);
    }
  }

  /** The narrower reading, that a handler ran when it returned, raised or stopped propagation, fails
      exactly when one did and the first signal is an unhandled update all the same. */
  lemma ActedExactly(groups: seq<Group>)
    ensures (CountsAsHandled(Fold(groups)) <==> SomeActed(groups))
            <==> !(SomeActed(groups) && FirstSignal(Deciders(groups)) == Some(Unhandles))
    ensures CountsAsHandled(Fold(groups)) ==> SomeActed(groups)
  {
    CountsExactly(groups);
    ActedDecides(groups);
  }

  /** A handler that runs to its end and passes the update on is not counted. */
  lemma ContinuingUncounted(h: Handler)
    requires h.kind in {OfUpdateType, RawUpdate} && h.check == Passes && h.callback == Continues
    ensures AllReached([[h]]) == [h] && !CountsAsHandled(Fold([[h]]))
  {
    assert [[h]][1..] == [] && [h][1..] == [];
    assert Reached([h]) == [h] && Decider([h]) == None;
  }

  /** Nor is one that returns, if a later group's declares the update unhandled. */
  lemma RanButUncounted(first: Handler, second: Handler)
    requires first.kind in {OfUpdateType, RawUpdate} && first.check == Passes && first.callback == Returns
    requires second.kind in {OfUpdateType, RawUpdate} && second.check == Passes && second.callback == Unhandles
    ensures SomeActed([[first], [second]]) && !CountsAsHandled(Fold([[first], [second]]))
  {
    var groups := [[first], [second]];
    assert groups[1..] == [[second]] && groups[0] == [first];
    assert Decider([first]) == Some(first) && Decider([second]) == Some(second);
    assert Fold([[second]]) == Unhandled;
    assert Deciders(groups) == [first] + Deciders([[second]]);
    ActedDecides(groups);
  }
}
