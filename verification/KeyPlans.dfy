/** The enumeration plan behind `ListenerKey.sub_keys` (pyroflow/models.py, `_get_plan`):
    every submask of a bit mask, widest selections first. */
module KeyPlans {

  // ---------------------------------------------------------------- bits of a mask

  predicate Bit(mask: nat, i: nat) {
    if i == 0 then mask % 2 == 1 else Bit(mask / 2, i - 1)
  }

  /** `mask | 1 << i` */
  function SetBit(mask: nat, i: nat): nat {
    if i == 0 then mask / 2 * 2 + 1 else SetBit(mask / 2, i - 1) * 2 + mask % 2
  }

  function BitLength(mask: nat): nat {
    if mask == 0 then 0 else 1 + BitLength(mask / 2)
  }

  /** `mask.bit_count()` */
  function BitCount(mask: nat): nat {
    if mask == 0 then 0 else mask % 2 + BitCount(mask / 2)
  }

  ghost predicate Submask(keep: nat, mask: nat) {
    forall i: nat :: Bit(keep, i) ==> Bit(mask, i)
  }

  lemma {:induction false} SetBitBit(mask: nat, i: nat, j: nat)
    ensures Bit(SetBit(mask, i), j) == (i == j || Bit(mask, j))
  {
    if i > 0 && j > 0 {
      SetBitBit(mask / 2, i - 1, j - 1);
    }
  }

  lemma {:induction false} ZeroHasNoBit(i: nat)
    ensures !Bit(0, i)
  {
    if i > 0 { ZeroHasNoBit(i - 1); }
  }

  lemma {:induction false} BitBelowLength(mask: nat, i: nat)
    requires Bit(mask, i)
    ensures i < BitLength(mask)
  {
    if mask == 0 {
      ZeroHasNoBit(i);
    } else if i > 0 {
      BitBelowLength(mask / 2, i - 1);
    }
  }

  /** A mask is determined by its bits. */
  lemma {:induction false} SameBits(a: nat, b: nat)
    requires forall i: nat :: Bit(a, i) == Bit(b, i)
    ensures a == b
    decreases a + b
  {
    if a + b > 0 {
      assert Bit(a, 0) == Bit(b, 0);
      forall i: nat ensures Bit(a / 2, i) == Bit(b / 2, i) {
        assert Bit(a, i + 1) == Bit(b, i + 1);
      }
      SameBits(a / 2, b / 2);
    }
  }

  // ---------------------------------------------------------------- selected positions

  function PositionsBelow(mask: nat, n: nat): seq<nat> {
    if n == 0 then [] else PositionsBelow(mask, n - 1) + if Bit(mask, n - 1) then [n - 1] else []
  }

  /** `[i for i in range(mask.bit_length()) if mask >> i & 1]` */
  function Positions(mask: nat): seq<nat> {
    PositionsBelow(mask, BitLength(mask))
  }

  ghost predicate Increasing(s: seq<nat>) {
    forall i, j :: 0 <= i < j < |s| ==> s[i] < s[j]
  }

  lemma {:induction false} PositionsBelowExact(mask: nat, n: nat)
    ensures Increasing(PositionsBelow(mask, n))
    ensures forall i: nat :: i in PositionsBelow(mask, n) <==> i < n && Bit(mask, i)
  {
    if n > 0 {
      PositionsBelowExact(mask, n - 1);
      var rest := PositionsBelow(mask, n - 1);
      assert forall k :: 0 <= k < |rest| ==> rest[k] in rest;
    }
  }

  lemma PositionsExact(mask: nat)
    ensures Increasing(Positions(mask))
    ensures forall i: nat :: i in Positions(mask) <==> Bit(mask, i)
  {
    PositionsBelowExact(mask, BitLength(mask));
    forall i: nat | Bit(mask, i) ensures i < BitLength(mask) {
      BitBelowLength(mask, i);
    }
  }

  lemma {:induction false} PositionsShift(mask: nat, n: nat)
    ensures |PositionsBelow(mask, n + 1)| == mask % 2 + |PositionsBelow(mask / 2, n)|
  {
    if n > 0 { PositionsShift(mask, n - 1); }
  }

  lemma {:induction false} BitCountIsPositions(mask: nat)
    ensures BitCount(mask) == |Positions(mask)|
  {
    if mask > 0 {
      BitCountIsPositions(mask / 2);
      PositionsShift(mask, BitLength(mask / 2));
    }
  }

  lemma {:induction false} IncreasingEqual(a: seq<nat>, b: seq<nat>)
    requires Increasing(a) && Increasing(b)
    requires forall x :: x in a <==> x in b
    ensures a == b
  {
    var probe := if |a| > 0 then a[0] else if |b| > 0 then b[0] else 0;
    assert probe in a <==> probe in b;
    if |a| > 0 {
      assert a[0] in b && b[0] in a;
      var i :| 0 <= i < |b| && b[i] == a[0];
      var j :| 0 <= j < |a| && a[j] == b[0];
      assert a[0] == b[0];
      forall x ensures x in a[1..] <==> x in b[1..] {
        if x in a[1..] { assert x in a && x != a[0]; assert x in b; }
        if x in b[1..] { assert x in b && x != b[0]; assert x in a; }
      }
      IncreasingEqual(a[1..], b[1..]);
      assert a == [a[0]] + a[1..] && b == [b[0]] + b[1..];
    }
  }

  // ---------------------------------------------------------------- combinations

  function Prefixed(x: nat, cs: seq<seq<nat>>): (r: seq<seq<nat>>)
    ensures |r| == |cs|
    ensures forall i :: 0 <= i < |r| ==> r[i] == [x] + cs[i]
  {
    seq(|cs|, i requires 0 <= i < |cs| => [x] + cs[i])
  }

  /** `itertools.combinations(s, size)`, in its documented order. */
  function Combinations(s: seq<nat>, size: nat): seq<seq<nat>> {
    if size == 0 then [[]]
    else if |s| == 0 then []
    else Prefixed(s[0], Combinations(s[1..], size - 1)) + Combinations(s[1..], size)
  }

  ghost predicate Selection(c: seq<nat>, s: seq<nat>, size: nat) {
    Increasing(c) && |c| == size && forall x :: x in c ==> x in s
  }

  predicate LexLess(a: seq<nat>, b: seq<nat>) {
    |a| == |b| && |a| > 0 && (a[0] < b[0] || (a[0] == b[0] && LexLess(a[1..], b[1..])))
  }

  lemma CombinationsAt(s: seq<nat>, size: nat, k: nat)
    requires size > 0 && |s| > 0 && k < |Combinations(s, size)|
    ensures var left := Combinations(s[1..], size - 1);
            Combinations(s, size)[k] ==
            if k < |left| then [s[0]] + left[k] else Combinations(s[1..], size)[k - |left|]
  {
  }

  /** Selecting `s[0]` first, then anything later in `s`. */
  lemma SelectionHead(s: seq<nat>, size: nat, tail: seq<nat>)
    requires Increasing(s) && |s| > 0 && size > 0 && Selection(tail, s[1..], size - 1)
    ensures Selection([s[0]] + tail, s, size)
  {
    var c := [s[0]] + tail;
    forall i, j | 0 <= i < j < |c| ensures c[i] < c[j] {
      assert tail[j - 1] in s[1..];
    }
  }

  lemma SelectionLater(s: seq<nat>, size: nat, c: seq<nat>)
    requires |s| > 0 && Selection(c, s[1..], size)
    ensures Selection(c, s, size)
  {
  }

  lemma {:induction false} CombinationsSound(s: seq<nat>, size: nat, k: nat)
    requires Increasing(s) && k < |Combinations(s, size)|
    ensures Selection(Combinations(s, size)[k], s, size)
  {
    if size > 0 {
      assert |s| > 0;
      var left, right := Combinations(s[1..], size - 1), Combinations(s[1..], size);
      assert |Combinations(s, size)| == |left| + |right|;
      CombinationsAt(s, size, k);
      hide Combinations, Selection;
      if k < |left| {
        CombinationsSound(s[1..], size - 1, k);
        SelectionHead(s, size, left[k]);
      } else {
        CombinationsSound(s[1..], size, k - |left|);
        SelectionLater(s, size, right[k - |left|]);
      }
    }
  }

  /** A selection either starts with `s[0]` or avoids it. */
  lemma SelectionTail(s: seq<nat>, size: nat, c: seq<nat>)
    requires Increasing(s) && size > 0 && Selection(c, s, size)
    ensures |s| > 0
    ensures c[0] == s[0] ==> c == [s[0]] + c[1..] && Selection(c[1..], s[1..], size - 1)
    ensures c[0] != s[0] ==> Selection(c, s[1..], size)
  {
    assert c[0] in s;
    forall x | x in c && x != s[0] ensures x in s[1..] {
      assert x in s;
    }
    if c[0] == s[0] {
      forall x | x in c[1..] ensures x in s[1..] {
        assert x in c && x != c[0];
      }
    }
  }

  lemma {:induction false} CombinationsComplete(s: seq<nat>, size: nat, c: seq<nat>) returns (i: nat)
    requires Increasing(s) && Selection(c, s, size)
    ensures i < |Combinations(s, size)| && Combinations(s, size)[i] == c
  {
    if size == 0 {
      return 0;
    }
    SelectionTail(s, size, c);
    if c[0] == s[0] {
      i := CombinationsComplete(s[1..], size - 1, c[1..]);
    } else {
      i := CombinationsComplete(s[1..], size, c);
      i := |Combinations(s[1..], size - 1)| + i;
    }
    CombinationsAt(s, size, i);
  }

  ghost predicate LexSorted(cs: seq<seq<nat>>) {
    forall a, b :: 0 <= a < b < |cs| ==> LexLess(cs[a], cs[b])
  }

  lemma PrefixedSorted(x: nat, cs: seq<seq<nat>>)
    requires LexSorted(cs)
    ensures LexSorted(Prefixed(x, cs))
  {
    forall a, b | 0 <= a < b < |cs| ensures LexLess([x] + cs[a], [x] + cs[b]) {
      assert ([x] + cs[a])[1..] == cs[a] && ([x] + cs[b])[1..] == cs[b];
    }
  }

  lemma ConcatSorted(left: seq<seq<nat>>, right: seq<seq<nat>>)
    requires LexSorted(left) && LexSorted(right)
    requires forall a, b :: 0 <= a < |left| && 0 <= b < |right| ==>
               |left[a]| == |right[b]| > 0 && left[a][0] < right[b][0]
    ensures LexSorted(left + right)
  {
  }

  /** Combinations that use `s[0]` start below those that do not. */
  lemma HeadSmaller(s: seq<nat>, size: nat, a: nat, b: nat)
    requires Increasing(s) && size > 0 && |s| > 0
    requires a < |Combinations(s[1..], size - 1)| && b < |Combinations(s[1..], size)|
    ensures |Combinations(s[1..], size - 1)[a]| == size - 1
    ensures |Combinations(s[1..], size)[b]| == size
    ensures s[0] < Combinations(s[1..], size)[b][0]
  {
    CombinationsSound(s[1..], size - 1, a);
    CombinationsSound(s[1..], size, b);
    assert Combinations(s[1..], size)[b][0] in s[1..];
  }

  lemma {:induction false} CombinationsOrdered(s: seq<nat>, size: nat)
    requires Increasing(s)
    ensures LexSorted(Combinations(s, size))
  {
    if size > 0 && |s| > 0 {
      var left, right := Combinations(s[1..], size - 1), Combinations(s[1..], size);
      CombinationsOrdered(s[1..], size - 1);
      CombinationsOrdered(s[1..], size);
      PrefixedSorted(s[0], left);
      forall a, b | 0 <= a < |left| && 0 <= b < |right|
        ensures |left[a]| + 1 == |right[b]| && s[0] < right[b][0]
      {
        HeadSmaller(s, size, a, b);
      }
      ConcatSorted(Prefixed(s[0], left), right);
    }
  }

  // ---------------------------------------------------------------- the plan

  /** The inner loop of `_get_plan`: `keep |= 1 << i` for each selected position. */
  function MaskFrom(keep: nat, c: seq<nat>): nat
    decreases |c|
  {
    if |c| == 0 then keep else MaskFrom(SetBit(keep, c[0]), c[1..])
  }

  lemma {:induction false} MaskFromBits(keep: nat, c: seq<nat>, i: nat)
    ensures Bit(MaskFrom(keep, c), i) == (Bit(keep, i) || i in c)
    decreases |c|
  {
    if |c| > 0 {
      MaskFromBits(SetBit(keep, c[0]), c[1..], i);
      SetBitBit(keep, c[0], i);
      assert c == [c[0]] + c[1..];
    }
  }

  lemma MaskPositions(c: seq<nat>)
    requires Increasing(c)
    ensures Positions(MaskFrom(0, c)) == c
    ensures BitCount(MaskFrom(0, c)) == |c|
  {
    var m := MaskFrom(0, c);
    PositionsExact(m);
    forall x: nat ensures x in Positions(m) <==> x in c {
      MaskFromBits(0, c, x);
      ZeroHasNoBit(x);
    }
    IncreasingEqual(Positions(m), c);
    BitCountIsPositions(m);
  }

  function MasksOf(cs: seq<seq<nat>>): (r: seq<nat>)
    ensures |r| == |cs|
    ensures forall i :: 0 <= i < |r| ==> r[i] == MaskFrom(0, cs[i])
  {
    seq(|cs|, i requires 0 <= i < |cs| => MaskFrom(0, cs[i]))
  }

  /** Everything `_get_plan` appends for the sizes `size`, `size - 1`, ..., 0. */
  function PlanFrom(optional: seq<nat>, size: nat): seq<nat> {
    MasksOf(Combinations(optional, size)) + if size == 0 then [] else PlanFrom(optional, size - 1)
  }

  function Plan(mask: nat): seq<nat> {
    PlanFrom(Positions(mask), |Positions(mask)|)
  }

  /** The plan's priority: more components first, then the earlier-declared components. */
  predicate Before(a: nat, b: nat) {
    BitCount(a) > BitCount(b) || (BitCount(a) == BitCount(b) && LexLess(Positions(a), Positions(b)))
  }

  lemma PlanFromSplit(optional: seq<nat>, size: nat, i: nat)
    requires i < |PlanFrom(optional, size)|
    ensures var cs := Combinations(optional, size);
            PlanFrom(optional, size)[i] ==
            if i < |cs| then MaskFrom(0, cs[i]) else PlanFrom(optional, size - 1)[i - |cs|]
  {
    hide Combinations;
  }

  /** The planned mask of a combination selects exactly that combination. */
  lemma PlanFromHead(optional: seq<nat>, size: nat, i: nat)
    requires Increasing(optional) && i < |Combinations(optional, size)|
    ensures |PlanFrom(optional, size)| > i
    ensures BitCount(PlanFrom(optional, size)[i]) == size
    ensures Positions(PlanFrom(optional, size)[i]) == Combinations(optional, size)[i]
  {
    hide Combinations;
    CombinationsSound(optional, size, i);
    MaskPositions(Combinations(optional, size)[i]);
    PlanFromSplit(optional, size, i);
  }

  lemma {:induction false} PlanFromAt(optional: seq<nat>, size: nat, i: nat)
    requires Increasing(optional) && i < |PlanFrom(optional, size)|
    ensures var p := PlanFrom(optional, size)[i];
            BitCount(p) <= size && Selection(Positions(p), optional, BitCount(p))
  {
    hide Combinations;
    var cs := Combinations(optional, size);
    if i < |cs| {
      CombinationsSound(optional, size, i);
      PlanFromHead(optional, size, i);
    } else {
      PlanFromSplit(optional, size, i);
      PlanFromAt(optional, size - 1, i - |cs|);
    }
  }

  lemma {:induction false} PlanFromHas(optional: seq<nat>, size: nat, c: seq<nat>) returns (i: nat)
    requires Increasing(optional) && |c| <= size && Selection(c, optional, |c|)
    ensures i < |PlanFrom(optional, size)| && PlanFrom(optional, size)[i] == MaskFrom(0, c)
  {
    hide Combinations;
    var cs := Combinations(optional, size);
    if |c| == size {
      i := CombinationsComplete(optional, size, c);
    } else {
      i := PlanFromHas(optional, size - 1, c);
      i := |cs| + i;
    }
    assert i < |PlanFrom(optional, size)|;
    PlanFromSplit(optional, size, i);
  }

  ghost predicate InPriorityOrder(plan: seq<nat>) {
    forall a, b :: 0 <= a < b < |plan| ==> Before(plan[a], plan[b])
  }

  lemma SameSizeOrdered(optional: seq<nat>, size: nat)
    requires Increasing(optional)
    ensures InPriorityOrder(MasksOf(Combinations(optional, size)))
  {
    hide Combinations;
    var cs := Combinations(optional, size);
    CombinationsOrdered(optional, size);
    forall a, b | 0 <= a < b < |cs| ensures Before(MasksOf(cs)[a], MasksOf(cs)[b]) {
      PlanFromHead(optional, size, a);
      PlanFromHead(optional, size, b);
      PlanFromSplit(optional, size, a);
      PlanFromSplit(optional, size, b);
    }
  }

  lemma ConcatOrdered(wide: seq<nat>, narrow: seq<nat>)
    requires InPriorityOrder(wide) && InPriorityOrder(narrow)
    requires forall a, b :: 0 <= a < |wide| && 0 <= b < |narrow| ==> BitCount(wide[a]) > BitCount(narrow[b])
    ensures InPriorityOrder(wide + narrow)
  {
  }

  lemma WiderFirst(optional: seq<nat>, size: nat, a: nat, b: nat)
    requires Increasing(optional) && size > 0
    requires a < |Combinations(optional, size)| && b < |PlanFrom(optional, size - 1)|
    ensures BitCount(MasksOf(Combinations(optional, size))[a]) > BitCount(PlanFrom(optional, size - 1)[b])
  {
    hide Combinations, PlanFrom;
    PlanFromHead(optional, size, a);
    PlanFromSplit(optional, size, a);
    PlanFromAt(optional, size - 1, b);
  }

  lemma {:induction false} PlanFromOrdered(optional: seq<nat>, size: nat)
    requires Increasing(optional)
    ensures InPriorityOrder(PlanFrom(optional, size))
  {
    hide Combinations, BitCount, LexLess, Positions;
    var wide := MasksOf(Combinations(optional, size));
    SameSizeOrdered(optional, size);
    if size > 0 {
      var narrow := PlanFrom(optional, size - 1);
      PlanFromOrdered(optional, size - 1);
      forall a, b | 0 <= a < |wide| && 0 <= b < |narrow|
        ensures BitCount(wide[a]) > BitCount(narrow[b])
      {
        WiderFirst(optional, size, a, b);
      }
      ConcatOrdered(wide, narrow);
    } else {
      assert PlanFrom(optional, size) == wide;
    }
  }

  /** A keep-mask is planned exactly when it is a submask. */
  lemma PlanExact(mask: nat, keep: nat)
    ensures keep in Plan(mask) <==> Submask(keep, mask)
  {
    var optional := Positions(mask);
    PositionsExact(mask);
    PositionsExact(keep);
    if keep in Plan(mask) {
      var i :| 0 <= i < |Plan(mask)| && Plan(mask)[i] == keep;
      PlanFromAt(optional, |optional|, i);
      forall j: nat | Bit(keep, j) ensures Bit(mask, j) {
        assert j in Positions(keep);
      }
    }
    if Submask(keep, mask) {
      var c := Positions(keep);
      SelectionFits(c, optional);
      var _ := PlanFromHas(optional, |optional|, c);
      forall j: nat ensures Bit(MaskFrom(0, c), j) == Bit(keep, j) {
        MaskFromBits(0, c, j);
        ZeroHasNoBit(j);
      }
      SameBits(MaskFrom(0, c), keep);
    }
  }

  /** An increasing list drawn from another is no longer than it. */
  lemma {:induction false} SelectionFits(c: seq<nat>, s: seq<nat>)
    requires Increasing(c) && Increasing(s)
    requires forall x :: x in c ==> x in s
    ensures |c| <= |s|
  {
    if |c| > 0 {
      assert c[0] in s;
      forall x | x in c[1..] ensures x in s[1..] {
        assert x in c && x > c[0] && x in s;
      }
      SelectionFits(c[1..], s[1..]);
    }
  }

  /** Widest first, ties in lexicographic order of the selected positions; hence no repeats. */
  lemma PlanOrdered(mask: nat, a: nat, b: nat)
    requires a < b < |Plan(mask)|
    ensures Before(Plan(mask)[a], Plan(mask)[b])
    ensures Plan(mask)[a] != Plan(mask)[b]
  {
    PositionsExact(mask);
    PlanFromOrdered(Positions(mask), |Positions(mask)|);
    NeverBeforeItself(Positions(Plan(mask)[a]));
  }

  lemma {:induction false} NeverBeforeItself(a: seq<nat>)
    ensures !LexLess(a, a)
  {
    if |a| > 0 { NeverBeforeItself(a[1..]); }
  }

  // ---------------------------------------------------------------- how many

  function Pow2(n: nat): nat {
    if n == 0 then 1 else 2 * Pow2(n - 1)
  }

  lemma {:induction false} TooLarge(s: seq<nat>, size: nat)
    requires size > |s|
    ensures |Combinations(s, size)| == 0
    decreases |s|
  {
    if |s| > 0 {
      TooLarge(s[1..], size - 1);
      TooLarge(s[1..], size);
    }
  }

  lemma {:induction false} PlanFromPascal(s: seq<nat>, size: nat)
    requires |s| > 0
    ensures |PlanFrom(s, size)| ==
            |PlanFrom(s[1..], size)| + if size == 0 then 0 else |PlanFrom(s[1..], size - 1)|
  {
    if size > 0 { PlanFromPascal(s, size - 1); }
  }

  lemma {:induction false} PlanFromLength(s: seq<nat>)
    ensures |PlanFrom(s, |s|)| == Pow2(|s|)
  {
    if |s| > 0 {
      PlanFromPascal(s, |s|);
      TooLarge(s[1..], |s|);
      PlanFromLength(s[1..]);
    }
  }

  lemma PlanLength(mask: nat)
    ensures |Plan(mask)| == Pow2(BitCount(mask))
  {
    PlanFromLength(Positions(mask));
    BitCountIsPositions(mask);
  }

  // ---------------------------------------------------------------- the loops

  /** The two inner loops of `_get_plan`, for one size. */
  method AppendSize(plan: seq<nat>, combos: seq<seq<nat>>) returns (longer: seq<nat>)
    ensures longer == plan + MasksOf(combos)
  {
    longer := plan;
    for k := 0 to |combos|
      invariant longer == plan + MasksOf(combos)[..k]
    {
      var keep, combo := 0, combos[k];
      for j := 0 to |combo|
        invariant MaskFrom(keep, combo[j..]) == MaskFrom(0, combo)
      {
        assert combo[j..][1..] == combo[j + 1..];
        keep := SetBit(keep, combo[j]);
      }
      assert combo[|combo|..] == [];
      longer := longer + [keep];
    }
    assert MasksOf(combos)[..|combos|] == MasksOf(combos);
  }

  /** The first comprehension of `_get_plan`. */
  method CollectPositions(mask: nat) returns (optional: seq<nat>)
    ensures optional == Positions(mask)
  {
    optional := [];
    for i := 0 to BitLength(mask)
      invariant optional == PositionsBelow(mask, i)
    {
      if Bit(mask, i) {
        optional := optional + [i];
      }
    }
  }

  /** What the outer loop has still to append. */
  function Rest(optional: seq<nat>, size: int): seq<nat> {
    if size < 0 then [] else PlanFrom(optional, size)
  }

  /** `_get_plan`. */
  method GetPlan(mask: nat) returns (plan: seq<nat>)
    ensures plan == Plan(mask)
  {
    hide Combinations, Positions;
    var optional := CollectPositions(mask);
    plan := [];
    var size: int := |optional|;
    while size > -1
      invariant -1 <= size <= |optional|
      invariant plan + Rest(optional, size) == Plan(mask)
    {
      var combos := Combinations(optional, size);
      assert plan + Rest(optional, size) == plan + MasksOf(combos) + Rest(optional, size - 1);
      plan := AppendSize(plan, combos);
      size := size - 1;
    }
  }
}
