/** pyroflow/update_coordinator: how lock and registry keys are spelt, and the in-process backend. */
module UpdateCoordinators {
  import opened Wrappers
  import opened Texts

  /** An element of an update key tuple. */
  datatype Part = Num(value: int) | Text(text: string)

  type UpdateKey = seq<Part>

  datatype Section = LockSection | HandledSection

  function SectionText(section: Section): string {
    match section
    case LockSection => "lock"
    case HandledSection => "handled"
  }

  /** `str(i)` */
  function PartText(part: Part): string {
    match part
    case Num(i) => IntText(i)
    case Text(s) => s
  }

  function PartTexts(key: UpdateKey): (texts: seq<string>)
    ensures |texts| == |key|
    ensures forall i :: 0 <= i < |key| ==> texts[i] == PartText(key[i])
  {
    seq(|key|, i requires 0 <= i < |key| => PartText(key[i]))
  }

  /** `build_key` */
  function BuildKey(updateName: string, key: UpdateKey, section: Section): string {
    "update" + [SEP] + SectionText(section) + [SEP] + updateName + [SEP] + Join(PartTexts(key))
  }

  predicate Integers(key: UpdateKey) {
    forall p :: p in key ==> p.Num?
  }

  /** The text of a part is its own and holds no separator. */
  predicate Plain(key: UpdateKey) {
    |key| > 0 && forall p :: p in key ==> SepFree(PartText(p))
  }

  // ---------------------------------------------------------------- namespaces

  lemma TailOf(updateName: string, key: UpdateKey, section: Section)
    ensures var n := |"update"| + 1 + |SectionText(section)| + 1 + |updateName| + 1;
            |BuildKey(updateName, key, section)| >= n
            && BuildKey(updateName, key, section)[n..] == Join(PartTexts(key))
  {
  }

  /** Marking handled never looks like a held lock, whatever the two tuples are. */
  lemma SectionsDisjoint(updateName: string, a: UpdateKey, b: UpdateKey)
    ensures BuildKey(updateName, a, LockSection) != BuildKey(updateName, b, HandledSection)
  {
    assert BuildKey(updateName, a, LockSection)[7] == 'l';
    assert BuildKey(updateName, b, HandledSection)[7] == 'h';
  }

  lemma IntegerTexts(key: UpdateKey)
    requires Integers(key)
    ensures forall i :: 0 <= i < |key| ==>
              SepFree(PartTexts(key)[i]) && |PartTexts(key)[i]| > 0 && ParseInt(PartTexts(key)[i]) == Some(key[i].value)
  {
    forall i | 0 <= i < |key|
      ensures SepFree(PartTexts(key)[i]) && |PartTexts(key)[i]| > 0 && ParseInt(PartTexts(key)[i]) == Some(key[i].value)
    {
      assert key[i] in key;
      ParseIntText(key[i].value);
    }
  }

  lemma JoinNotEmpty(texts: seq<string>)
    requires |texts| > 0 && |texts[0]| > 0
    ensures |Join(texts)| > 0
  {
  }

  lemma PlainTexts(key: UpdateKey)
    requires Plain(key)
    ensures Split(Join(PartTexts(key))) == PartTexts(key)
  {
    forall p | p in PartTexts(key) ensures SepFree(p) {
      var i :| 0 <= i < |key| && PartTexts(key)[i] == p;
      assert key[i] in key;
    }
    SplitJoin(PartTexts(key));
  }

  /** Tuples whose parts hold no separator collide exactly when their parts print alike. */
  lemma PlainKeysCollide(updateName: string, a: UpdateKey, b: UpdateKey, section: Section)
    requires Plain(a) && Plain(b)
    ensures BuildKey(updateName, a, section) == BuildKey(updateName, b, section) <==> PartTexts(a) == PartTexts(b)
  {
    PlainTexts(a);
    PlainTexts(b);
    TailOf(updateName, a, section);
    TailOf(updateName, b, section);
  }

  /** What a tuple shows once every part is cut at its separators; nothing at all shows as one empty text. */
  function Fields(texts: seq<string>): seq<string> {
    if |texts| == 0 then [""] else if |texts| == 1 then Split(texts[0]) else Split(texts[0]) + Fields(texts[1..])
  }

  lemma {:induction false} SplitJoined(texts: seq<string>)
    ensures Split(Join(texts)) == Fields(texts)
  {
    hide Split;
    if |texts| == 0 {
      SplitStep("");
    } else if |texts| > 1 {
      SplitJoined(texts[1..]);
      SplitAt(texts[0], Join(texts[1..]));
    }
  }

  /** A key as it is spelt: the namespace, the section, the type, then the parts. */
  lemma KeyFields(updateName: string, key: UpdateKey, section: Section)
    ensures Split(BuildKey(updateName, key, section))
            == ["update", if section == LockSection then "lock" else "handled"] + Split(updateName)
               + Fields(PartTexts(key))
  {
    hide Split, Join;
    SplitThree("update", SectionText(section), updateName, Join(PartTexts(key)));
    SplitWord("update");
    SplitWord(SectionText(section));
    SplitJoined(PartTexts(key));
  }

  /** Exactly which tuples share a key, strings and all: those that show the same fields. */
  lemma KeysCollide(updateName: string, a: UpdateKey, b: UpdateKey, section: Section)
    ensures BuildKey(updateName, a, section) == BuildKey(updateName, b, section)
            <==> Fields(PartTexts(a)) == Fields(PartTexts(b))
  {
    SplitJoined(PartTexts(a));
    SplitJoined(PartTexts(b));
    TailOf(updateName, a, section);
    TailOf(updateName, b, section);
    JoinSplit(Join(PartTexts(a)));
    JoinSplit(Join(PartTexts(b)));
  }

  /** On tuples of integers, of any length and sign, `build_key` is injective. */
  lemma IntegerKeysInjective(updateName: string, a: UpdateKey, b: UpdateKey, section: Section)
    requires Integers(a) && Integers(b)
    requires BuildKey(updateName, a, section) == BuildKey(updateName, b, section)
    ensures a == b
  {
    IntegerTexts(a);
    IntegerTexts(b);
    TailOf(updateName, a, section);
    TailOf(updateName, b, section);
    if |a| > 0 { JoinNotEmpty(PartTexts(a)); }
    if |b| > 0 { JoinNotEmpty(PartTexts(b)); }
    if |a| > 0 && |b| > 0 {
      assert Plain(a) by { PlainIntegers(a); }
      assert Plain(b) by { PlainIntegers(b); }
      PlainKeysCollide(updateName, a, b, section);
      forall i | 0 <= i < |a| ensures a[i] == b[i] {
        assert a[i] in a && b[i] in b;
        assert ParseInt(PartTexts(a)[i]) == ParseInt(PartTexts(b)[i]);
      }
    }
  }

  lemma PlainIntegers(key: UpdateKey)
    requires Integers(key) && |key| > 0
    ensures Plain(key)
  {
    forall p | p in key ensures SepFree(PartText(p)) {
      ParseIntText(p.value);
    }
  }

  /** Recording an integer id records that id and no other. */
  lemma RecordingIsExact(updateName: string, handled: set<string>, id: UpdateKey, other: UpdateKey)
    requires Integers(id) && Integers(other)
    ensures BuildKey(updateName, other, HandledSection) in handled + {BuildKey(updateName, id, HandledSection)}
            <==> BuildKey(updateName, other, HandledSection) in handled || other == id
  {
    if BuildKey(updateName, other, HandledSection) == BuildKey(updateName, id, HandledSection) {
      IntegerKeysInjective(updateName, other, id, HandledSection);
    }
  }

  /** With strings among the parts it is not: the separator, and a digit string, both collide. */
  lemma StringKeysCollide(updateName: string, section: Section)
    ensures BuildKey(updateName, [Text("a|b")], section) == BuildKey(updateName, [Text("a"), Text("b")], section)
    ensures BuildKey(updateName, [Num(7)], section) == BuildKey(updateName, [Text("7")], section)
  {
    assert PartTexts([Text("a|b")]) == ["a|b"];
    assert PartTexts([Text("a"), Text("b")]) == ["a", "b"];
    assert ["a", "b"][1..] == ["b"];
    assert Join(["a", "b"]) == "a" + [SEP] + "b" == "a|b";
    assert PartTexts([Num(7)]) == ["7"] == PartTexts([Text("7")]);
  }

  // ---------------------------------------------------------------- the in-process backend

  /** A mutex whose holder is whoever took it last. */
  class TimedLock {
    var locked: bool
    ghost var releases: nat

    constructor ()
      ensures !locked && releases == 0
    {
      locked, releases := false, 0;
    }

    /** `acquire`: false when the lock is still taken at the end of the wait. */
    method Acquire() returns (ok: bool)
      modifies this
      ensures ok <==> !old(locked)
      ensures locked && releases == old(releases)
    {
      ok := !locked;
      locked := true;
    }

    method Release()
      requires locked
      modifies this
      ensures !locked && releases == old(releases) + 1
    {
      locked, releases := false, releases + 1;
    }
  }

  class MemoryUpdateCoordinator {
    const updateName: string
    var handled: set<string>
    var locks: map<string, TimedLock>

    constructor (updateName: string)
      ensures this.updateName == updateName && handled == {} && locks == map[] && Valid()
    {
      this.updateName := updateName;
      handled, locks := {}, map[];
    }

    /** The ids recorded as handled, by the keys they are recorded under. */
    predicate IsRecorded(key: UpdateKey)
      reads this`handled
    {
      BuildKey(updateName, key, HandledSection) in handled
    }

    /** No two scopes share a mutex. */
    ghost predicate Valid()
      reads this
    {
      forall j, k :: j in locks && k in locks && j != k ==> locks[j] != locks[k]
    }

    /** `lock`: one mutex per scope, created on first use. */
    method Lock(key: UpdateKey) returns (lock: TimedLock)
      requires Valid()
      modifies this`locks
      ensures Valid()
      ensures BuildKey(updateName, key, LockSection) in locks && locks[BuildKey(updateName, key, LockSection)] == lock
      ensures BuildKey(updateName, key, LockSection) in old(locks) ==> locks == old(locks)
      ensures BuildKey(updateName, key, LockSection) !in old(locks) ==>
                fresh(lock) && !lock.locked && lock.releases == 0
                && locks == old(locks)[BuildKey(updateName, key, LockSection) := lock]
    {
      var k := BuildKey(updateName, key, LockSection);
      if k in locks {
        lock := locks[k];
      } else {
        lock := new TimedLock();
        locks := locks[k := lock];
      }
    }

    method IsHandled(key: UpdateKey) returns (r: bool)
      ensures r == IsRecorded(key)
    {
      r := BuildKey(updateName, key, HandledSection) in handled;
    }

    /** `mark_handled`: the id becomes handled, and of all integer ids no other. */
    method MarkHandled(key: UpdateKey)
      modifies this`handled
      ensures handled == old(handled) + {BuildKey(updateName, key, HandledSection)}
      ensures Integers(key) ==>
                forall other :: Integers(other) ==> (IsRecorded(other) <==> old(IsRecorded(other)) || other == key)
    {
      handled := handled + {BuildKey(updateName, key, HandledSection)};
      forall other | Integers(key) && Integers(other)
        ensures IsRecorded(other) <==> old(IsRecorded(other)) || other == key
      {
        RecordingIsExact(updateName, old(handled), key, other);
      }
    }

    method Stop()
      modifies this`handled
      ensures handled == {}
    {
      handled := {};
    }
  }
}
