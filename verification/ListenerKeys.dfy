/** `ListenerKey` and its candidate enumeration (pyroflow/models.py). */
module ListenerKeys {
  import opened Wrappers
  import opened KeyPlans

  datatype ListenerKey = ListenerKey(chatId: int, userId: Option<int>, messageId: Option<int>)

  /** `to_tuple`: the components in declaration order. */
  function ToTuple(key: ListenerKey): (values: seq<Option<int>>)
    ensures |values| == 3
  {
    [Some(key.chatId), key.userId, key.messageId]
  }

  /** How many components a key carries, counting `chat_id`. */
  function Components(key: ListenerKey): nat {
    1 + (if key.userId.Some? then 1 else 0) + (if key.messageId.Some? then 1 else 0)
  }

  /** A listener under `sub` is a candidate for an update whose key is `key`. */
  predicate Matches(key: ListenerKey, sub: ListenerKey) {
    && sub.chatId == key.chatId
    && (sub.userId.Some? ==> sub.userId == key.userId)
    && (sub.messageId.Some? ==> sub.messageId == key.messageId)
  }

  // ---------------------------------------------------------------- masks of keys

  /** The bits of the optional components a key carries. */
  function MaskBelow(values: seq<Option<int>>, n: nat): nat
    requires n <= |values|
  {
    if n <= 1 then 0
    else if values[n - 1].Some? then SetBit(MaskBelow(values, n - 1), n - 1)
    else MaskBelow(values, n - 1)
  }

  function MaskOf(key: ListenerKey): nat {
    MaskBelow(ToTuple(key), 3)
  }

  function Select(key: ListenerKey, keep: nat): ListenerKey {
    ListenerKey(key.chatId,
                if Bit(keep, 1) then key.userId else None,
                if Bit(keep, 2) then key.messageId else None)
  }

  lemma MaskOfBits(key: ListenerKey, i: nat)
    ensures Bit(MaskOf(key), i) == ((i == 1 && key.userId.Some?) || (i == 2 && key.messageId.Some?))
  {
    var values := ToTuple(key);
    ZeroHasNoBit(i);
    SetBitBit(0, 1, i);
    assert MaskBelow(values, 2) == if key.userId.Some? then SetBit(0, 1) else 0;
    SetBitBit(MaskBelow(values, 2), 2, i);
  }

  lemma MaskOfCount(key: ListenerKey)
    ensures BitCount(MaskOf(key)) + 1 == Components(key)
  {
    var values := ToTuple(key);
    assert MaskBelow(values, 1) == 0;
    assert MaskBelow(values, 2) == if key.userId.Some? then 2 else 0 by {
      assert SetBit(0, 1) == 2;
    }
    assert SetBit(0, 2) == 4 && SetBit(2, 2) == 6 by {
      assert SetBit(0, 1) == 2 && SetBit(1, 1) == 3;
    }
    assert BitCount(0) == 0 && BitCount(1) == 1 && BitCount(2) == 1 && BitCount(3) == 2;
    assert BitCount(4) == 1 && BitCount(6) == 2;
  }

  /** A submask of a key's mask is the mask of the key it selects. */
  lemma SelectedMask(key: ListenerKey, keep: nat)
    requires Submask(keep, MaskOf(key))
    ensures MaskOf(Select(key, keep)) == keep
    ensures Matches(key, Select(key, keep))
  {
    forall i: nat ensures Bit(MaskOf(Select(key, keep)), i) == Bit(keep, i) {
      MaskOfBits(key, i);
      MaskOfBits(Select(key, keep), i);
    }
    SameBits(MaskOf(Select(key, keep)), keep);
  }

  lemma MatchingMask(key: ListenerKey, sub: ListenerKey)
    requires Matches(key, sub)
    ensures Submask(MaskOf(sub), MaskOf(key))
    ensures Select(key, MaskOf(sub)) == sub
  {
    forall i: nat ensures Bit(MaskOf(sub), i) ==> Bit(MaskOf(key), i) {
      MaskOfBits(key, i);
      MaskOfBits(sub, i);
    }
    MaskOfBits(sub, 1);
    MaskOfBits(sub, 2);
  }

  // ---------------------------------------------------------------- sub_keys

  /** The part of a plan walked before the early return at `min_dep`. */
  function Walk(plan: seq<nat>, minDep: int): seq<nat> {
    if |plan| == 0 || BitCount(plan[0]) + 1 < minDep then [] else [plan[0]] + Walk(plan[1..], minDep)
  }

  function SelectAll(key: ListenerKey, keeps: seq<nat>): (subs: seq<ListenerKey>)
    ensures |subs| == |keeps|
    ensures forall i :: 0 <= i < |subs| ==> subs[i] == Select(key, keeps[i])
  {
    seq(|keeps|, i requires 0 <= i < |keeps| => Select(key, keeps[i]))
  }

  function SubKeys(key: ListenerKey, minDep: int): seq<ListenerKey> {
    SelectAll(key, Walk(Plan(MaskOf(key)), minDep))
  }

  ghost predicate Narrowing(plan: seq<nat>) {
    forall a, b :: 0 <= a < b < |plan| ==> BitCount(plan[a]) >= BitCount(plan[b])
  }

  /** On a plan that only narrows, stopping early drops nothing a filter would keep. */
  lemma {:induction false} WalkIsFilter(plan: seq<nat>, minDep: int)
    requires Narrowing(plan)
    ensures Walk(plan, minDep) <= plan
    ensures forall i :: 0 <= i < |plan| ==> (i < |Walk(plan, minDep)| <==> BitCount(plan[i]) + 1 >= minDep)
  {
    if |plan| > 0 && BitCount(plan[0]) + 1 >= minDep {
      WalkIsFilter(plan[1..], minDep);
    }
  }

  lemma PlanNarrows(mask: nat)
    ensures Narrowing(Plan(mask))
  {
    forall a, b | 0 <= a < b < |Plan(mask)| ensures BitCount(Plan(mask)[a]) >= BitCount(Plan(mask)[b]) {
      PlanOrdered(mask, a, b);
    }
  }

  lemma WalkedKeep(key: ListenerKey, minDep: int, i: nat)
    requires i < |SubKeys(key, minDep)|
    ensures i < |Plan(MaskOf(key))| && SubKeys(key, minDep)[i] == Select(key, Plan(MaskOf(key))[i])
    ensures MaskOf(SubKeys(key, minDep)[i]) == Plan(MaskOf(key))[i]
    ensures Matches(key, SubKeys(key, minDep)[i]) && Components(SubKeys(key, minDep)[i]) >= minDep
  {
    var plan := Plan(MaskOf(key));
    PlanNarrows(MaskOf(key));
    WalkIsFilter(plan, minDep);
    assert Walk(plan, minDep)[i] == plan[i];
    assert plan[i] in plan;
    PlanExact(MaskOf(key), plan[i]);
    SelectedMask(key, plan[i]);
    MaskOfCount(Select(key, plan[i]));
  }

  /** The candidates are exactly the keys of the same chat whose other components are absent or equal, with at
      least `min_dep` components. */
  lemma SubKeysExact(key: ListenerKey, minDep: int, sub: ListenerKey)
    ensures sub in SubKeys(key, minDep) <==>
              && sub.chatId == key.chatId
              && (sub.userId == None || sub.userId == key.userId)
              && (sub.messageId == None || sub.messageId == key.messageId)
              && 1 + (if sub.userId.Some? then 1 else 0) + (if sub.messageId.Some? then 1 else 0) >= minDep
  {
    var subs := SubKeys(key, minDep);
    if sub in subs {
      var i :| 0 <= i < |subs| && subs[i] == sub;
      WalkedKeep(key, minDep, i);
    }
    if Matches(key, sub) && Components(sub) >= minDep {
      var plan := Plan(MaskOf(key));
      MatchingMask(key, sub);
      MaskOfCount(sub);
      PlanExact(MaskOf(key), MaskOf(sub));
      var i :| 0 <= i < |plan| && plan[i] == MaskOf(sub);
      PlanNarrows(MaskOf(key));
      WalkIsFilter(plan, minDep);
      assert subs[i] == sub;
    }
  }

  lemma TwoPositions(keep: nat, sub: ListenerKey)
    requires keep == MaskOf(sub)
    ensures Positions(keep) == (if sub.userId.Some? then [1] else []) + (if sub.messageId.Some? then [2] else [])
  {
    var expected: seq<nat> := (if sub.userId.Some? then [1] else []) + (if sub.messageId.Some? then [2] else []);
    PositionsExact(keep);
    forall x: nat ensures x in Positions(keep) <==> x in expected {
      MaskOfBits(sub, x);
    }
    IncreasingEqual(Positions(keep), expected);
  }

  /** More components first; between equals the user outranks the message; and nothing twice. */
  lemma SubKeysOrdered(key: ListenerKey, minDep: int, a: nat, b: nat)
    requires a < b < |SubKeys(key, minDep)|
    ensures var sa, sb := SubKeys(key, minDep)[a], SubKeys(key, minDep)[b];
            var na := (if sa.userId.Some? then 1 else 0) + (if sa.messageId.Some? then 1 else 0);
            var nb := (if sb.userId.Some? then 1 else 0) + (if sb.messageId.Some? then 1 else 0);
            sa != sb && (na > nb || (na == nb && sa.userId.Some? && sb.userId.None?))
  {
    var sa, sb := SubKeys(key, minDep)[a], SubKeys(key, minDep)[b];
    WalkedKeep(key, minDep, a);
    WalkedKeep(key, minDep, b);
    PlanOrdered(MaskOf(key), a, b);
    MaskOfCount(sa);
    MaskOfCount(sb);
    TwoPositions(MaskOf(sa), sa);
    TwoPositions(MaskOf(sb), sb);
  }

  /** The mask-building loop of `sub_keys`. */
  method BuildMask(key: ListenerKey) returns (mask: nat)
    ensures mask == MaskOf(key)
  {
    var values := ToTuple(key);
    mask := 0;
    for i := 0 to |values|
      invariant mask == MaskBelow(values, i)
    {
      if i != 0 && values[i].Some? {
        mask := SetBit(mask, i);
      }
    }
  }

  lemma WalkOnward(plan: seq<nat>, minDep: int)
    requires |plan| > 0
    ensures Walk(plan, minDep)
            == if BitCount(plan[0]) + 1 < minDep then [] else [plan[0]] + Walk(plan[1..], minDep)
  {
  }

  lemma WalkStep(plan: seq<nat>, minDep: int, k: nat)
    requires k < |plan| && Walk(plan, minDep) == plan[..k] + Walk(plan[k..], minDep)
    ensures BitCount(plan[k]) + 1 < minDep ==> Walk(plan, minDep) == plan[..k]
    ensures BitCount(plan[k]) + 1 >= minDep ==>
              Walk(plan, minDep) == plan[..k + 1] + Walk(plan[k + 1..], minDep)
  {
    hide BitCount, Walk;
    WalkOnward(plan[k..], minDep);
    assert plan[k..][0] == plan[k] && plan[k..][1..] == plan[k + 1..];
    assert plan[..k + 1] == plan[..k] + [plan[k]];
  }

  /** `ListenerKey.sub_keys`, as the list of what the generator yields. */
  method EnumerateSubKeys(key: ListenerKey, minDep: int) returns (subs: seq<ListenerKey>)
    ensures subs == SubKeys(key, minDep)
  {
    hide Plan, BitCount, Bit, MaskOf;
    var mask := BuildMask(key);
    var plan := GetPlan(mask);
    subs := [];
    for k := 0 to |plan|
      invariant Walk(plan, minDep) == plan[..k] + Walk(plan[k..], minDep)
      invariant subs == SelectAll(key, plan[..k])
    {
      WalkStep(plan, minDep, k);
      if BitCount(plan[k]) + 1 < minDep {
        return;
      }
      subs := subs + [Select(key, plan[k])];
    }
    assert plan[..|plan|] == plan && Walk(plan[|plan|..], minDep) == [];
  }
}
