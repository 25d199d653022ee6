/** What a `mark_handled` at the wrong moment costs: exactly when a claim can get an update registered by a
    call that never ran, recorded unseen, or processed twice at once; and exactly when it counts. */
module ClaimDiscipline {
  import opened Wrappers
  import opened CoordinationProtocol
  import opened ExactlyOnce

  ghost predicate Path(states: seq<State>, steps: seq<Step>) {
    && |states| == |steps| + 1
    && forall n :: 0 <= n < |steps| ==> Enabled(states[n], steps[n]) && states[n + 1] == Apply(states[n], steps[n])
  }

  lemma Joined(a: seq<State>, x: seq<Step>, b: seq<State>, y: seq<Step>)
    requires Path(a, x) && Path(b, y) && a[|x|] == b[0]
    ensures Path(a + b[1..], x + y)
  {
    hide Enabled, Apply;
    var states, steps := a + b[1..], x + y;
    forall n | 0 <= n < |steps|
      ensures Enabled(states[n], steps[n]) && states[n + 1] == Apply(states[n], steps[n])
    {
      if n >= |x| {
        assert Enabled(b[n - |x|], y[n - |x|]) && b[n - |x| + 1] == Apply(b[n - |x|], y[n - |x|]);
      }
    }
  }

  lemma Extends(states: seq<State>, steps: seq<Step>, step: Step) returns (longer: seq<State>)
    requires Path(states, steps) && Enabled(states[|steps|], step)
    ensures longer == states + [Apply(states[|steps|], step)] && Path(longer, steps + [step])
  {
    hide Enabled, Apply;
    longer := states + [Apply(states[|steps|], step)];
  }

  lemma TwoSteps(s: State, x: Step, y: Step) returns (states: seq<State>)
    requires Enabled(s, x) && Enabled(Apply(s, x), y)
    ensures Path(states, [x, y]) && states == [s, Apply(s, x), Apply(Apply(s, x), y)]
  {
    hide Enabled, Apply;
    states := Extends([s], [], x);
    states := Extends(states, [] + [x], y);
    assert [] + [x] + [y] == [x, y];
  }

  lemma ThreeSteps(s: State, x: Step, y: Step, z: Step) returns (states: seq<State>)
    requires Enabled(s, x) && Enabled(Apply(s, x), y) && Enabled(Apply(Apply(s, x), y), z)
    ensures Path(states, [x, y, z])
    ensures states == [s, Apply(s, x), Apply(Apply(s, x), y), Apply(Apply(Apply(s, x), y), z)]
  {
    hide Enabled, Apply;
    states := TwoSteps(s, x, y);
    states := Extends(states, [x, y], z);
    assert [x, y] + [z] == [x, y, z];
  }

  // ---------------------------------------------------------------- a registration without a processing

  /** A call registered its update and has not given it to the handlers. */
  ghost predicate Unprocessed(s: State) {
    exists p :: p in s.procs && s.procs[p].registrations == 1 && !s.procs[p].ran
  }

  /** From `s`, disciplined steps alone lead to such a state. */
  ghost predicate LeadsToLoss(s: State) {
    exists states, steps :: Loses(s, states, steps)
  }

  ghost predicate Loses(s: State, states: seq<State>, steps: seq<Step>) {
    && Path(states, steps) && states[0] == s && Unprocessed(states[|steps|])
    && forall n :: 0 <= n < |steps| ==> Disciplined(states[n], steps[n])
  }

  lemma {:induction false} PathKeepsExact(states: seq<State>, steps: seq<Step>, n: nat)
    requires Path(states, steps) && ExactInv(states[0]) && n < |states|
    requires forall m :: 0 <= m < |steps| ==> Disciplined(states[m], steps[m])
    ensures ExactInv(states[n])
  {
    hide ExactInv, Enabled, Apply, Disciplined;
    if n > 0 {
      PathKeepsExact(states, steps, n - 1);
      ExactKeeps(states[n - 1], steps[n - 1]);
      assert states[n - 1 + 1] == Apply(states[n - 1], steps[n - 1]);
    }
  }

  /** The steps after an untimely claim by which it registers before anything ran. */
  function LossSteps(q: Proc, p: nat): seq<Step> {
    if q.main == Held then [Identify(p), EarlyStart(p), EarlyRegister(p)] else [EarlyStart(p), EarlyRegister(p)]
  }

  /** A scheduled settlement that finds an identity and nothing run registers it. */
  lemma EarlyRegisters(s: State, p: nat)
    requires p in s.procs && s.procs[p].early == Scheduled && !s.procs[p].main.Settling?
    requires !s.procs[p].released && s.procs[p].updateId.Some? && !s.procs[p].ran && s.procs[p].registrations == 0
    ensures Enabled(s, EarlyStart(p)) && Enabled(Apply(s, EarlyStart(p)), EarlyRegister(p))
    ensures Unprocessed(Apply(Apply(s, EarlyStart(p)), EarlyRegister(p)))
  {
    var next := Apply(Apply(s, EarlyStart(p)), EarlyRegister(p));
    assert next.procs[p].registrations == 1 && !next.procs[p].ran;
  }

  /** What an untimely claim leaves: a settlement to be performed for a call that has run nothing. */
  predicate Untimely(q: Proc) {
    && q.early == Scheduled && !q.released && !q.ran && q.registrations == 0 && !q.main.Settling?
    && (q.main == Held || q.updateId.Some?)
  }

  lemma ClaimsUntimely(s: State, p: nat)
    requires Inv(s) && Enabled(s, Claim(p)) && Takes(s.procs[p])
    requires OutcomeInv(s.procs[p]) && !Timely(s.procs[p])
    ensures p in Apply(s, Claim(p)).procs && Untimely(Apply(s, Claim(p)).procs[p])
    ensures Apply(s, Claim(p)).procs[p].main == s.procs[p].main
  {
    assert ProcInv(s.procs[p]);
  }

  lemma IdentifiesUntimely(s: State, p: nat)
    requires At(s, p, Held) && Untimely(s.procs[p])
    ensures Enabled(s, Identify(p)) && At(Apply(s, Identify(p)), p, Identified)
    ensures Untimely(Apply(s, Identify(p)).procs[p])
  {
  }

  lemma UntimelyLoses(s: State, p: nat) returns (states: seq<State>)
    requires p in s.procs && Untimely(s.procs[p])
    ensures Loses(s, states, LossSteps(s.procs[p], p))
  {
    if s.procs[p].main == Held {
      IdentifiesUntimely(s, p);
      var b := Apply(s, Identify(p));
      EarlyRegisters(b, p);
      hide Apply, Enabled, Unprocessed;
      states := ThreeSteps(s, Identify(p), EarlyStart(p), EarlyRegister(p));
    } else {
      EarlyRegisters(s, p);
      hide Apply, Enabled, Unprocessed;
      states := TwoSteps(s, EarlyStart(p), EarlyRegister(p));
    }
  }

  lemma ExactIsProcessed(s: State)
    requires ExactInv(s)
    ensures !Unprocessed(s)
  {
  }

  /** Timeliness is exactly what it takes: a claim can make a call register an update it has not processed,
      be it the first registration of that update or one more, if and only if it is untimely. */
  lemma ClaimExact(s: State, p: nat)
    requires ExactInv(s) && Enabled(s, Claim(p)) && Takes(s.procs[p])
    ensures LeadsToLoss(Apply(s, Claim(p))) <==> !Timely(s.procs[p])
  {
    var next := Apply(s, Claim(p));
    if Timely(s.procs[p]) {
      ExactKeeps(s, Claim(p));
      hide ExactInv, Apply, Timely, Unprocessed;
      forall states, steps | Loses(next, states, steps) ensures false {
        PathKeepsExact(states, steps, |steps|);
        ExactIsProcessed(states[|steps|]);
      }
    } else {
      assert OutcomeInv(s.procs[p]);
      ClaimsUntimely(s, p);
      var states := UntimelyLoses(next, p);
    }
  }

  // ---------------------------------------------------------------- an update nobody saw

  /** The id was registered by a call that gave the update to the handlers. */
  ghost predicate Seen(s: State, id: UpdateId) {
    exists r :: RegisteredBy(s, id, r) && s.procs[r].ran
  }

  ghost predicate AllSeen(s: State) {
    forall id :: id in s.handled ==> Seen(s, id)
  }

  /** From `s`, disciplined steps alone lead to an update that is recorded as handled and that no call
      which registered it gave to the handlers. */
  ghost predicate LeadsToUnseen(s: State) {
    exists states, steps :: Hides(s, states, steps)
  }

  ghost predicate Hides(s: State, states: seq<State>, steps: seq<Step>) {
    && Path(states, steps) && states[0] == s && !AllSeen(states[|steps|])
    && forall n :: 0 <= n < |steps| ==> Disciplined(states[n], steps[n])
  }

  lemma ExactIsSeen(s: State)
    requires ExactInv(s)
    ensures AllSeen(s)
  {
    forall id | id in s.handled ensures Seen(s, id) {
      var r :| RegisteredBy(s, id, r);
      assert OutcomeInv(s.procs[r]);
    }
  }

  /** Every call but `p` is in order, and the update of `p` was recorded before. */
  ghost predicate SeenInv(s: State, p: nat) {
    Inv(s) && AllSeen(s) && p in s.procs && s.procs[p].id in s.handled && OthersOrdered(s, p)
  }

  ghost predicate OthersOrdered(s: State, p: nat) {
    forall q :: q in s.procs && q != p ==> OutcomeInv(s.procs[q])
  }

  /** Registering and having run are for good. */
  lemma AdvanceKeepsSeen(s: State, step: Step)
    requires Enabled(s, step) && !step.Begin? && ProcInv(s.procs[step.p])
    ensures var q, r := s.procs[step.p], Advance(s, step);
            && r.id == q.id && (q.ran ==> r.ran)
            && (Registers(step) ==>
                  q.registrations == 0 && r.registrations == 1 && Apply(s, step).handled == s.handled + {q.id})
            && (!Registers(step) ==> r.registrations == q.registrations && Apply(s, step).handled == s.handled)
  {
  }

  lemma StaysSeen(s: State, n: State, step: Step, id: UpdateId)
    requires Enabled(s, step) && n == Apply(s, step) && Seen(s, id) && Inv(s)
    ensures Seen(n, id)
  {
    var r :| RegisteredBy(s, id, r) && s.procs[r].ran;
    if !step.Begin? && step.p == r {
      assert ProcInv(s.procs[r]);
      AdvanceKeepsSeen(s, step);
    }
    hide Inv, Advance;
    assert RegisteredBy(n, id, r) && n.procs[r].ran;
  }

  lemma AllSeenKeeps(s: State, step: Step, p: nat)
    requires SeenInv(s, p) && Enabled(s, step) && Disciplined(s, step)
    ensures AllSeen(Apply(s, step))
  {
    var n := Apply(s, step);
    if !step.Begin? {
      assert ProcInv(s.procs[step.p]);
      AdvanceKeepsSeen(s, step);
      if step.p != p {
        OutcomeKeeps(s, step);
      }
    }
    hide Inv, OutcomeInv, ProcInv, Advance, Disciplined, Enabled;
    forall id | id in n.handled ensures Seen(n, id) {
      if id in s.handled {
        StaysSeen(s, n, step, id);
      } else {
        assert OutcomeInv(n.procs[step.p]) && RegisteredBy(n, id, step.p);
        RegisteredRan(n.procs[step.p]);
      }
    }
  }

  lemma RegisteredRan(q: Proc)
    requires OutcomeInv(q) && q.registrations == 1
    ensures q.ran
  {
  }

  lemma OthersStayOrdered(s: State, step: Step, p: nat)
    requires OthersOrdered(s, p) && Enabled(s, step) && Disciplined(s, step)
    requires step.Begin? || ProcInv(s.procs[step.p])
    ensures OthersOrdered(Apply(s, step), p)
  {
    var n := Apply(s, step);
    if step.Begin? {
      FreshOutcome(step.scope, step.id);
    } else if step.p != p {
      OutcomeKeeps(s, step);
    }
    hide OutcomeInv, ProcInv, Advance, Disciplined, Enabled;
    forall q | q in n.procs && q != p ensures OutcomeInv(n.procs[q]) {
    }
  }

  lemma AppliesOnward(s: State, step: Step, p: nat)
    requires Enabled(s, step) && p in s.procs
    ensures p in Apply(s, step).procs && Apply(s, step).procs[p].id == s.procs[p].id
    ensures s.handled <= Apply(s, step).handled
    ensures step.Claim? ==>
              Apply(s, step).handled == s.handled
              && forall q :: q in Apply(s, step).procs && q != step.p ==>
                   q in s.procs && Apply(s, step).procs[q] == s.procs[q]
  {
  }

  lemma SeenKeeps(s: State, step: Step, p: nat)
    requires SeenInv(s, p) && Enabled(s, step) && Disciplined(s, step)
    ensures SeenInv(Apply(s, step), p)
  {
    AllSeenKeeps(s, step, p);
    StepKeeps(s, step);
    AppliesOnward(s, step, p);
    assert step.Begin? || ProcInv(s.procs[step.p]);
    hide Inv, OthersOrdered, ProcInv, AllSeen, Disciplined, Enabled, Apply;
    OthersStayOrdered(s, step, p);
  }

  lemma {:induction false} PathKeepsSeen(states: seq<State>, steps: seq<Step>, n: nat, p: nat)
    requires Path(states, steps) && SeenInv(states[0], p) && n < |states|
    requires forall m :: 0 <= m < |steps| ==> Disciplined(states[m], steps[m])
    ensures SeenInv(states[n], p)
  {
    hide SeenInv, Enabled, Apply, Disciplined;
    if n > 0 {
      PathKeepsSeen(states, steps, n - 1, p);
      SeenKeeps(states[n - 1], steps[n - 1], p);
      assert states[n - 1 + 1] == Apply(states[n - 1], steps[n - 1]);
    }
  }

  /** A claim on a recorded update, timely or not, leaves everything recorded seen. */
  lemma ClaimOnRecorded(s: State, p: nat)
    requires ExactInv(s) && Enabled(s, Claim(p)) && s.procs[p].id in s.handled
    ensures SeenInv(Apply(s, Claim(p)), p)
  {
    var n := Apply(s, Claim(p));
    StepKeeps(s, Claim(p));
    ExactIsSeen(s);
    AppliesOnward(s, Claim(p), p);
    assert Inv(s) && Outcomes(s);
    hide Inv, ExactInv, OutcomeInv, Apply, Enabled, Seen;
    forall id | id in n.handled ensures Seen(n, id) {
      StaysSeen(s, n, Claim(p), id);
    }
  }

  /** An unrecorded id has not been registered by anyone, so the call that registers it is all there is. */
  lemma UntimelyHides(s: State, p: nat) returns (states: seq<State>)
    requires HandledInv(s) && p in s.procs && Untimely(s.procs[p]) && s.procs[p].id !in s.handled
    requires s.procs[p].updateId in {None, Some(s.procs[p].id)}
    ensures Hides(s, states, LossSteps(s.procs[p], p))
  {
    states := UntimelyLoses(s, p);
    var steps := LossSteps(s.procs[p], p);
    var n := states[|steps|];
    assert s.procs[p].id in n.handled && !Seen(n, s.procs[p].id) by {
      LossSpares(s, p, states);
    }
  }

  lemma LossSpares(s: State, p: nat, states: seq<State>)
    requires p in s.procs && Untimely(s.procs[p]) && s.procs[p].updateId in {None, Some(s.procs[p].id)}
    requires Path(states, LossSteps(s.procs[p], p)) && states[0] == s
    ensures var n := states[|LossSteps(s.procs[p], p)|];
            && n.handled == s.handled + {s.procs[p].id} && p in n.procs && !n.procs[p].ran
            && forall r :: r in n.procs && r != p ==> r in s.procs && n.procs[r] == s.procs[r]
  {
    if s.procs[p].main == Held {
      IdentifiesUntimely(s, p);
      assert states[1] == Apply(s, Identify(p));
      assert states[2] == Apply(states[1], EarlyStart(p));
      assert states[3] == Apply(states[2], EarlyRegister(p));
    } else {
      assert states[1] == Apply(s, EarlyStart(p));
      assert states[2] == Apply(states[1], EarlyRegister(p));
    }
  }

  /** Exactly when a claim can get an update recorded as handled that no handler saw: when it is untimely
      and the update is not recorded yet. */
  lemma UnseenExact(s: State, p: nat)
    requires ExactInv(s) && Enabled(s, Claim(p)) && Takes(s.procs[p])
    ensures LeadsToUnseen(Apply(s, Claim(p))) <==> !Timely(s.procs[p]) && s.procs[p].id !in s.handled
  {
    var next := Apply(s, Claim(p));
    if Timely(s.procs[p]) {
      ExactKeeps(s, Claim(p));
      hide ExactInv, Apply, Timely, AllSeen;
      forall states, steps | Hides(next, states, steps) ensures false {
        PathKeepsExact(states, steps, |steps|);
        ExactIsSeen(states[|steps|]);
      }
    } else if s.procs[p].id in s.handled {
      ClaimOnRecorded(s, p);
      hide ExactInv, Apply, Timely;
      forall states, steps | Hides(next, states, steps) ensures false {
        PathKeepsSeen(states, steps, |steps|, p);
      }
    } else {
      assert OutcomeInv(s.procs[p]) && ProcInv(s.procs[p]);
      ClaimsUntimely(s, p);
      hide ExactInv, OutcomeInv, ProcInv;
      assert HandledInv(next) by { ClaimKeepsHandled(s, p); }
      var states := UntimelyHides(next, p);
    }
  }

  lemma ClaimKeepsHandled(s: State, p: nat)
    requires HandledInv(s) && Enabled(s, Claim(p))
    ensures HandledInv(Apply(s, Claim(p)))
  {
    var n := Apply(s, Claim(p));
    forall id | id in n.handled ensures exists r :: RegisteredBy(n, id, r) {
      var r :| RegisteredBy(s, id, r);
      assert RegisteredBy(n, id, r);
    }
  }

  // ---------------------------------------------------------------- one update, two calls at once

  /** Two calls are processing one update. */
  ghost predicate Overlaps(s: State) {
    exists p, q :: p != q && At(s, p, Running) && At(s, q, Running) && s.procs[p].id == s.procs[q].id
  }

  ghost predicate Overtakes(s: State, states: seq<State>, steps: seq<Step>) {
    && Path(states, steps) && states[0] == s && Overlaps(states[|steps|])
    && forall n :: 0 <= n < |steps| ==> Disciplined(states[n], steps[n])
  }

  /** From `s`, disciplined steps alone lead to two calls processing one update. */
  ghost predicate LeadsToOverlap(s: State) {
    exists states, steps :: Overtakes(s, states, steps)
  }

  /** A call that has not finished gives its lock up only for an update recorded as handled. */
  predicate Solo(q: Proc, handled: set<UpdateId>) {
    && (q.main in {Acquiring, Held} ==> !q.ran)
    && (q.main in {Identified, Running} ==> q.updateId.Some?)
    && (q.main == Held && q.early == Scheduled ==> q.id in handled)
    && (q.main in {Held, Identified, Running} && (q.early == EarlyReleasing || q.releases == 1) ==> q.id in handled)
  }

  ghost predicate AllSolo(s: State) {
    forall p :: p in s.procs ==> Solo(s.procs[p], s.handled)
  }

  ghost predicate SoloInv(s: State) {
    Inv(s) && SameScope(s) && AllSolo(s) && !Overlaps(s)
  }

  lemma ExactIsSolo(s: State)
    requires ExactInv(s)
    ensures SoloInv(s)
  {
    forall p | p in s.procs ensures Solo(s.procs[p], s.handled) {
      assert ProcInv(s.procs[p]) && OutcomeInv(s.procs[p]);
    }
    forall p, q | p != q && At(s, p, Running) && At(s, q, Running) ensures s.procs[p].id != s.procs[q].id {
      assert ProcInv(s.procs[p]) && OutcomeInv(s.procs[p]) && ProcInv(s.procs[q]) && OutcomeInv(s.procs[q]);
      hide ProcInv, OutcomeInv;
      if s.procs[p].id == s.procs[q].id && Locked(s.procs[p]) && Locked(s.procs[q]) {
        OneHolder(s, p, q);
      }
    }
  }

  lemma AdvanceIsSolo(s: State, step: Step)
    requires Enabled(s, step) && !step.Begin? && ProcInv(s.procs[step.p]) && Solo(s.procs[step.p], s.handled)
    requires step.Claim? && Takes(s.procs[step.p]) ==>
               Timely(s.procs[step.p]) || s.procs[step.p].main != Held || s.procs[step.p].id in s.handled
    ensures Solo(Advance(s, step), Apply(s, step).handled)
  {
  }

  /** Only the check starts a processing, under the lock and for an update not yet recorded. */
  lemma CheckIsAlone(s: State, p: nat, q: nat)
    requires p != q && At(s, p, Identified) && At(s, q, Running) && s.procs[p].id !in s.handled
    requires LockInv(s) && SameScope(s) && AllSolo(s) && ProcInv(s.procs[p]) && ProcInv(s.procs[q])
    ensures s.procs[p].id != s.procs[q].id
  {
    assert Solo(s.procs[p], s.handled) && Solo(s.procs[q], s.handled);
    if s.procs[p].id == s.procs[q].id {
      OneHolder(s, p, q);
    }
  }

  lemma RunsSince(s: State, step: Step, p: nat)
    requires Enabled(s, step) && !step.Begin? && At(Apply(s, step), p, Running)
    ensures p in s.procs && Apply(s, step).procs[p].id == s.procs[p].id
    ensures At(s, p, Running) || (step == Check(p) && At(s, p, Identified) && s.procs[p].id !in s.handled)
  {
  }

  lemma AdvanceStaysAlone(s: State, step: Step)
    requires SoloInv(s) && Enabled(s, step) && !step.Begin?
    ensures !Overlaps(Apply(s, step))
  {
    hide Apply, Enabled, LockInv, SameScope, AllSolo, ProcInv;
    var n := Apply(s, step);
    forall p, q | p != q && At(n, p, Running) && At(n, q, Running) ensures n.procs[p].id != n.procs[q].id {
      RunsSince(s, step, p);
      RunsSince(s, step, q);
      assert ProcInv(s.procs[p]) && ProcInv(s.procs[q]);
      if At(s, p, Running) && At(s, q, Running) {
        assert s.procs[p].id != s.procs[q].id;
      } else if !At(s, p, Running) {
        CheckIsAlone(s, p, q);
      } else {
        CheckIsAlone(s, q, p);
      }
    }
  }

  lemma ReplaceIsSolo(s: State, n: State, p: nat, r: Proc)
    requires SameScope(s) && AllSolo(s) && n.procs == s.procs[p := r] && s.handled <= n.handled && Solo(r, n.handled)
    requires forall q :: q in s.procs && s.procs[q].id == r.id ==> s.procs[q].scope == r.scope
    ensures SameScope(n) && AllSolo(n)
  {
    forall q | q in n.procs ensures Solo(n.procs[q], n.handled) {
      assert q != p ==> Solo(s.procs[q], s.handled);
    }
  }

  lemma BeginStaysAlone(s: State, step: Step)
    requires SoloInv(s) && Enabled(s, step) && step.Begin? && Disciplined(s, step)
    ensures !Overlaps(Apply(s, step)) && SameScope(Apply(s, step)) && AllSolo(Apply(s, step))
  {
    hide Inv;
    var n := Apply(s, step);
    ReplaceIsSolo(s, n, step.p, n.procs[step.p]);
    forall p, q | p != q && At(n, p, Running) && At(n, q, Running) ensures n.procs[p].id != n.procs[q].id {
      assert At(s, p, Running) && At(s, q, Running);
    }
  }

  lemma SoloKeeps(s: State, step: Step)
    requires SoloInv(s) && Enabled(s, step)
    requires Disciplined(s, step)
             || (step.Claim? && Takes(s.procs[step.p])
                 && (s.procs[step.p].main != Held || s.procs[step.p].id in s.handled))
    ensures SoloInv(Apply(s, step))
  {
    StepKeeps(s, step);
    if step.Begin? {
      BeginStaysAlone(s, step);
    } else {
      assert ProcInv(s.procs[step.p]) && Solo(s.procs[step.p], s.handled);
      AdvanceIsSolo(s, step);
      AdvanceStaysAlone(s, step);
      AdvanceKeepsNames(s, step);
      assert s.handled <= Apply(s, step).handled;
      hide Inv, ProcInv, Advance, Overlaps, Disciplined, AllSolo, Solo, Enabled;
      ReplaceIsSolo(s, Apply(s, step), step.p, Advance(s, step));
    }
  }

  lemma AdvanceKeepsNames(s: State, step: Step)
    requires Enabled(s, step) && !step.Begin?
    ensures Advance(s, step).id == s.procs[step.p].id && Advance(s, step).scope == s.procs[step.p].scope
  {
  }

  lemma {:induction false} PathStaysSolo(states: seq<State>, steps: seq<Step>, n: nat)
    requires Path(states, steps) && SoloInv(states[0]) && n < |states|
    requires forall m :: 0 <= m < |steps| ==> Disciplined(states[m], steps[m])
    ensures SoloInv(states[n])
  {
    hide SoloInv, Enabled, Apply, Disciplined;
    if n > 0 {
      PathStaysSolo(states, steps, n - 1);
      SoloKeeps(states[n - 1], steps[n - 1]);
      assert states[n - 1 + 1] == Apply(states[n - 1], steps[n - 1]);
    }
  }

  /** The lock of `p` is free although `p`, its settlement spent, has yet to identify its update. */
  predicate GaveUpLock(s: State, p: nat) {
    At(s, p, Held) && s.procs[p].early == EarlyOver && s.procs[p].scope !in s.locks && s.procs[p].id !in s.handled
  }

  ghost predicate SameNames(s: State, n: State) {
    && n.procs.Keys == s.procs.Keys
    && forall r :: r in s.procs ==> n.procs[r].id == s.procs[r].id && n.procs[r].scope == s.procs[r].scope
  }

  lemma GivesUpLock(s: State, p: nat) returns (states: seq<State>)
    requires At(s, p, Held) && s.procs[p].early == Scheduled && !s.procs[p].released
    requires s.procs[p].updateId.None? && s.procs[p].id !in s.handled
    ensures Path(states, [EarlyStart(p), EarlyRelease(p)]) && states[0] == s
    ensures GaveUpLock(states[2], p) && SameNames(s, states[2])
  {
    states := TwoSteps(s, EarlyStart(p), EarlyRelease(p));
  }

  lemma PeerEnters(s: State, p: nat, q: nat) returns (states: seq<State>)
    requires GaveUpLock(s, p) && q !in s.procs
    ensures Path(states, [Begin(q, s.procs[p].scope, s.procs[p].id), Acquire(q)]) && states[0] == s
    ensures At(states[2], q, Held) && states[2].procs[q].id == s.procs[p].id
    ensures p in states[2].procs && states[2].procs[p] == s.procs[p] && states[2].handled == s.handled
  {
    states := TwoSteps(s, Begin(q, s.procs[p].scope, s.procs[p].id), Acquire(q));
  }

  lemma Runs(s: State, p: nat) returns (states: seq<State>)
    requires At(s, p, Held) && s.procs[p].id !in s.handled
    ensures Path(states, [Identify(p), Check(p)]) && states[0] == s
    ensures At(states[2], p, Running) && states[2].handled == s.handled && states[2].procs[p].id == s.procs[p].id
    ensures states[2].procs.Keys == s.procs.Keys
    ensures forall r :: r in s.procs && r != p ==> states[2].procs[r] == s.procs[r]
  {
    states := TwoSteps(s, Identify(p), Check(p));
  }

  lemma {:induction false} Unused(names: set<nat>) returns (q: nat)
    ensures forall n :: n in names ==> n < q
    decreases names
  {
    if names == {} {
      q := 0;
    } else {
      var n :| n in names;
      q := Unused(names - {n});
      q := if q <= n then n + 1 else q;
      assert names == (names - {n}) + {n};
    }
  }

  /** After a claim made before its update is identified, call `q` carries the same update. */
  function OverlapSteps(p: nat, q: nat, scope: Scope, id: UpdateId): seq<Step> {
    [EarlyStart(p), EarlyRelease(p)] + [Begin(q, scope, id), Acquire(q)] + [Identify(q), Check(q)]
    + [Identify(p), Check(p)]
  }

  lemma EarlyClaimOverlaps(s: State, p: nat, q: nat) returns (states: seq<State>)
    requires SameScope(s) && At(s, p, Held) && s.procs[p].early == Scheduled && !s.procs[p].released
    requires s.procs[p].updateId.None? && s.procs[p].id !in s.handled && q !in s.procs
    ensures Overtakes(s, states, OverlapSteps(p, q, s.procs[p].scope, s.procs[p].id))
  {
    var scope, id := s.procs[p].scope, s.procs[p].id;
    var a := GivesUpLock(s, p);
    var b := PeerEnters(a[2], p, q);
    var c := Runs(b[2], q);
    var d := Runs(c[2], p);
    assert Disciplined(a[2], Begin(q, scope, id));
    var first, second := [EarlyStart(p), EarlyRelease(p)], [Begin(q, scope, id), Acquire(q)];
    var third := [Identify(q), Check(q)];
    assert Overlaps(d[2]);
    hide Enabled, Apply, At, GaveUpLock, Overlaps, SameNames;
    Joined(a, first, b, second);
    Joined(a + b[1..], first + second, c, third);
    Joined(a + b[1..] + c[1..], first + second + third, d, [Identify(p), Check(p)]);
    states := a + b[1..] + c[1..] + d[1..];
    var steps := OverlapSteps(p, q, scope, id);
    forall n | 0 <= n < |steps| ensures Disciplined(states[n], steps[n]) {
      if n == 2 {
        assert states[2] == a[2] && steps[2] == Begin(q, scope, id);
      }
    }
  }

  /** Exactly when a claim can get an update processed by two calls at once: when it is made before the
      update is identified, and the update is still to be handled. */
  lemma OverlapExact(s: State, p: nat)
    requires ExactInv(s) && Enabled(s, Claim(p)) && Takes(s.procs[p])
    ensures LeadsToOverlap(Apply(s, Claim(p))) <==> At(s, p, Held) && s.procs[p].id !in s.handled
  {
    var next := Apply(s, Claim(p));
    if At(s, p, Held) && s.procs[p].id !in s.handled {
      assert OutcomeInv(s.procs[p]);
      hide LockInv, ProcInv, HandledInv, UnsettledInv, UniqueInv;
      var q := Unused(next.procs.Keys);
      var states := EarlyClaimOverlaps(next, p, q);
    } else {
      ExactIsSolo(s);
      SoloKeeps(s, Claim(p));
      hide ExactInv, SoloInv, Apply, Overlaps;
      forall states, steps | Overtakes(next, states, steps) ensures false {
        PathStaysSolo(states, steps, |steps|);
        SoloNeverOverlaps(states[|steps|]);
      }
    }
  }

  lemma SoloNeverOverlaps(s: State)
    requires SoloInv(s)
    ensures !Overlaps(s)
  {
  }

  // ---------------------------------------------------------------- when a claim counts

  /** The dispatcher is past its own look at the claim: it settles as `handled` says, whatever was claimed. */
  predicate Late(q: Proc, handled: bool, updateId: Option<UpdateId>) {
    && q.updateId == updateId && q.early in {Scheduled, EarlyOver} && q.registrations <= 1
    && match q.main
       case Settling(h) => h == handled && q.early == Scheduled && !q.released && q.registrations == 0
       case Registering => q.released && q.registrations == 0 && handled && updateId.Some?
       case Releasing => q.released && (q.registrations == 1 <==> handled && updateId.Some?)
       case Over => q.released && (q.registrations == 1 <==> handled && updateId.Some?)
       case _ => false
  }

  lemma LateKeeps(s: State, step: Step, p: nat, handled: bool, updateId: Option<UpdateId>)
    requires Enabled(s, step) && p in s.procs && Late(s.procs[p], handled, updateId)
    ensures p in Apply(s, step).procs && Late(Apply(s, step).procs[p], handled, updateId)
  {
  }

  lemma {:induction false} PathStaysLate(states: seq<State>, steps: seq<Step>, n: nat, p: nat, handled: bool,
                                         updateId: Option<UpdateId>)
    requires Path(states, steps) && n < |states|
    requires p in states[0].procs && Late(states[0].procs[p], handled, updateId)
    ensures p in states[n].procs && Late(states[n].procs[p], handled, updateId)
  {
    hide Enabled, Apply, Late;
    if n > 0 {
      PathStaysLate(states, steps, n - 1, p, handled, updateId);
      LateKeeps(states[n - 1], steps[n - 1], p, handled, updateId);
      assert states[n - 1 + 1] == Apply(states[n - 1], steps[n - 1]);
    }
  }

  /** A claim from another thread between the dispatcher's two looks answers that it took the settlement,
      and decides nothing: however the run goes on, the call registers its update exactly if the
      dispatcher was about to. */
  lemma LateClaimDecidesNothing(s: State, p: nat, handled: bool, states: seq<State>, steps: seq<Step>, n: nat)
    requires Inv(s) && At(s, p, Settling(handled)) && Takes(s.procs[p])
    requires Path(states, steps) && states[0] == Apply(s, Claim(p)) && n < |states| && At(states[n], p, Over)
    ensures states[0].procs[p].early == Scheduled
    ensures states[n].procs[p].registrations == 1 <==> handled && s.procs[p].updateId.Some?
  {
    assert ProcInv(s.procs[p]);
    PathStaysLate(states, steps, n, p, handled, s.procs[p].updateId);
  }

  /** The claim is in charge: the call ends by its settlement, which registers the update. */
  predicate InCharge(q: Proc) {
    && q.updateId.Some? && q.main !in {Acquiring, GaveUp, Registering, Releasing} && !q.main.Settling?
    && match q.early
       case NotClaimed => false
       case Scheduled => !q.released && q.registrations == 0 && q.main != Over
       case EarlyRegistering => q.released && q.registrations == 0 && q.main != Over
       case EarlyReleasing => q.released && q.registrations == 1 && q.main != Over
       case EarlyOver => q.released && q.registrations == 1
  }

  lemma InChargeKeeps(s: State, step: Step, p: nat)
    requires Enabled(s, step) && p in s.procs && InCharge(s.procs[p])
    ensures p in Apply(s, step).procs && InCharge(Apply(s, step).procs[p])
  {
  }

  lemma {:induction false} PathStaysInCharge(states: seq<State>, steps: seq<Step>, n: nat, p: nat)
    requires Path(states, steps) && n < |states| && p in states[0].procs && InCharge(states[0].procs[p])
    ensures p in states[n].procs && InCharge(states[n].procs[p])
  {
    hide Enabled, Apply, InCharge;
    if n > 0 {
      PathStaysInCharge(states, steps, n - 1, p);
      InChargeKeeps(states[n - 1], steps[n - 1], p);
      assert states[n - 1 + 1] == Apply(states[n - 1], steps[n - 1]);
    }
  }

  /** Exactly when a taken claim on an identified update counts: always, unless it falls between the
      dispatcher's two looks and the dispatcher was not about to register. */
  lemma ClaimCountsExactly(s: State, p: nat, states: seq<State>, steps: seq<Step>, n: nat)
    requires Inv(s) && Enabled(s, Claim(p)) && Takes(s.procs[p]) && s.procs[p].updateId.Some?
    requires Path(states, steps) && states[0] == Apply(s, Claim(p)) && n < |states| && At(states[n], p, Over)
    ensures states[n].procs[p].registrations == 1 <==> s.procs[p].main != Settling(false)
  {
    assert ProcInv(s.procs[p]);
    if s.procs[p].main.Settling? {
      LateClaimDecidesNothing(s, p, s.procs[p].main.handled, states, steps, n);
    } else {
      PathStaysInCharge(states, steps, n, p);
    }
  }
}
