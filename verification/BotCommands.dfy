/** pyroflow/client.py, `BotCommandsMixin`: the commands to publish, grouped by language and scope. */
module BotCommands {
  import opened Wrappers

  datatype Command = Command(command: string, description: string)

  datatype GroupKey = GroupKey(language: Option<string>, scope: Option<string>)

  /** A collected group, or one declaration on a handler. */
  datatype CommandGroup = CommandGroup(key: GroupKey, commands: seq<Command>)

  /** The declarations a handler carries. */
  type Declarations = seq<CommandGroup>

  // ---------------------------------------------------------------- lookup

  /** The place of the first group with this key; past the end when there is none. */
  function IndexOf(groups: seq<CommandGroup>, key: GroupKey): (i: nat)
    ensures i <= |groups|
    ensures i < |groups| ==> groups[i].key == key
    ensures forall j :: 0 <= j < i ==> groups[j].key != key
  {
    if |groups| == 0 || groups[0].key == key then 0 else 1 + IndexOf(groups[1..], key)
  }

  /** What is listed under a key, as the source looks it up. */
  function Listed(groups: seq<CommandGroup>, key: GroupKey): seq<Command> {
    var i := IndexOf(groups, key);
    if i < |groups| then groups[i].commands else []
  }

  ghost predicate Keyed(groups: seq<CommandGroup>) {
    forall i, j :: 0 <= i < j < |groups| ==> groups[i].key != groups[j].key
  }

  lemma ListedAt(groups: seq<CommandGroup>, i: nat)
    requires Keyed(groups) && i < |groups|
    ensures IndexOf(groups, groups[i].key) == i && Listed(groups, groups[i].key) == groups[i].commands
  {
  }

  lemma ListedOnward(groups: seq<CommandGroup>, key: GroupKey)
    requires |groups| > 0
    ensures Listed(groups, key) == if groups[0].key == key then groups[0].commands else Listed(groups[1..], key)
  {
  }

  // ---------------------------------------------------------------- collecting

  function Collected(groups: seq<CommandGroup>, key: GroupKey, commands: seq<Command>): seq<CommandGroup> {
    var i := IndexOf(groups, key);
    if i < |groups| then groups[i := CommandGroup(key, groups[i].commands + commands)]
    else groups + [CommandGroup(key, commands)]
  }

  /** Collecting appends under its own key and nowhere else. */
  lemma CollectListed(groups: seq<CommandGroup>, key: GroupKey, commands: seq<Command>, k: GroupKey)
    requires Keyed(groups)
    ensures Keyed(Collected(groups, key, commands))
    ensures Listed(Collected(groups, key, commands), k) == Listed(groups, k) + (if k == key then commands else [])
  {
    hide IndexOf;
    var after := Collected(groups, key, commands);
    var i := IndexOf(groups, k);
    var j := if i < |groups| then i else |groups|;
    assert forall m :: 0 <= m < |groups| ==> after[m].key == groups[m].key;
    if i < |groups| || k == key {
      assert after[j].key == k;
      assert IndexOf(after, k) == j;
    }
  }

  /** It changes the first group with the key, or else adds one at the end; every other stays where it is. */
  lemma CollectsInPlace(groups: seq<CommandGroup>, key: GroupKey, commands: seq<Command>, i: nat)
    requires i < |Collected(groups, key, commands)|
    ensures var g, r := CommandGroup(key, commands), Collected(groups, key, commands);
            && |r| == |groups| + (if exists h :: h in groups && h.key == key then 0 else 1)
            && r[i] == if i == |groups| then g
                       else if groups[i].key == key && forall j :: 0 <= j < i ==> groups[j].key != key
                       then CommandGroup(key, groups[i].commands + commands)
                       else groups[i]
  {
    var n := IndexOf(groups, key);
    if n < |groups| {
      assert groups[n] in groups;
    }
  }

  // ---------------------------------------------------------------- discarding

  /** `list.remove`, a missing command being ignored. */
  function RemoveFirst(s: seq<Command>, c: Command): seq<Command> {
    if |s| == 0 then []
    else if s[0] == c then s[1..]
    else [s[0]] + RemoveFirst(s[1..], c)
  }

  function RemoveEach(s: seq<Command>, cs: seq<Command>): seq<Command>
    decreases |cs|
  {
    if |cs| == 0 then s else RemoveFirst(RemoveEach(s, cs[..|cs| - 1]), cs[|cs| - 1])
  }

  lemma {:induction false} RemoveFirstMeaning(s: seq<Command>, c: Command)
    ensures multiset(RemoveFirst(s, c)) == multiset(s) - multiset{c}
  {
    if |s| > 0 {
      assert s == [s[0]] + s[1..];
      RemoveFirstMeaning(s[1..], c);
    }
  }

  lemma {:induction false} RemoveEachMeaning(s: seq<Command>, cs: seq<Command>)
    ensures multiset(RemoveEach(s, cs)) == multiset(s) - multiset(cs)
    decreases |cs|
  {
    hide RemoveFirst;
    if |cs| > 0 {
      var front, last := cs[..|cs| - 1], cs[|cs| - 1];
      assert cs == front + [last];
      RemoveEachMeaning(s, front);
      RemoveFirstMeaning(RemoveEach(s, front), last);
    }
  }

  lemma RemoveNone(s: seq<Command>)
    ensures RemoveEach(s, []) == s
  {
  }

  lemma RemoveEachGrows(s: seq<Command>, cs: seq<Command>, n: nat)
    requires n < |cs|
    ensures RemoveEach(s, cs[..n + 1]) == RemoveFirst(RemoveEach(s, cs[..n]), cs[n])
  {
    hide RemoveFirst;
    assert cs[..n + 1][..n] == cs[..n];
  }

  function Discarded(groups: seq<CommandGroup>, key: GroupKey, commands: seq<Command>): seq<CommandGroup> {
    var i := IndexOf(groups, key);
    if i == |groups| then groups
    else
      var kept := RemoveEach(groups[i].commands, commands);
      if kept == [] then groups[..i] + groups[i + 1..] else groups[i := CommandGroup(key, kept)]
  }

  /** Discarding takes one occurrence of each command away under its own key, and touches no other. */
  lemma DiscardListed(groups: seq<CommandGroup>, key: GroupKey, commands: seq<Command>, k: GroupKey)
    requires Keyed(groups)
    ensures Keyed(Discarded(groups, key, commands))
    ensures k != key ==> Listed(Discarded(groups, key, commands), k) == Listed(groups, k)
    ensures k == key ==>
              multiset(Listed(Discarded(groups, key, commands), k)) == multiset(Listed(groups, k)) - multiset(commands)
  {
    hide IndexOf, RemoveEach;
    var after := Discarded(groups, key, commands);
    var i, cut := IndexOf(groups, k), IndexOf(groups, key);
    RemoveEachMeaning(if cut < |groups| then groups[cut].commands else [], commands);
    if cut < |groups| && |after| < |groups| {
      assert after == groups[..cut] + groups[cut + 1..];
      if k == key {
        assert forall j :: 0 <= j < |after| ==> after[j].key != k;
      } else if i < |groups| {
        var j := if i < cut then i else i - 1;
        assert after[j] == groups[i];
        ListedAt(after, j);
      } else {
        assert forall j :: 0 <= j < |after| ==> after[j].key != k;
      }
    } else if cut < |groups| {
      assert forall j :: 0 <= j < |groups| ==> after[j].key == groups[j].key;
      assert IndexOf(after, k) == i;
    }
  }

  function Track(groups: seq<CommandGroup>, entries: Declarations): seq<CommandGroup>
    decreases |entries|
  {
    if |entries| == 0 then groups
    else Track(Collected(groups, entries[0].key, entries[0].commands), entries[1..])
  }

  function Untrack(groups: seq<CommandGroup>, entries: Declarations): seq<CommandGroup>
    decreases |entries|
  {
    if |entries| == 0 then groups
    else Untrack(Discarded(groups, entries[0].key, entries[0].commands), entries[1..])
  }

  /** The two lists hold the same commands, as often, under every key. */
  ghost predicate SameCommands(a: seq<CommandGroup>, b: seq<CommandGroup>) {
    forall k: GroupKey :: multiset(Listed(a, k)) == multiset(Listed(b, k))
  }

  /** Everything the entries declare under a key. */
  function DeclaredUnder(entries: Declarations, key: GroupKey): seq<Command> {
    if |entries| == 0 then []
    else (if entries[0].key == key then entries[0].commands else []) + DeclaredUnder(entries[1..], key)
  }

  lemma {:induction false} TrackListed(groups: seq<CommandGroup>, entries: Declarations, k: GroupKey)
    requires Keyed(groups)
    ensures Keyed(Track(groups, entries))
    ensures Listed(Track(groups, entries), k) == Listed(groups, k) + DeclaredUnder(entries, k)
    decreases |entries|
  {
    hide IndexOf, Listed, Collected, Keyed;
    if |entries| > 0 {
      CollectListed(groups, entries[0].key, entries[0].commands, k);
      TrackListed(Collected(groups, entries[0].key, entries[0].commands), entries[1..], k);
    }
  }

  lemma {:induction false} UntrackListed(groups: seq<CommandGroup>, entries: Declarations, k: GroupKey)
    requires Keyed(groups)
    ensures Keyed(Untrack(groups, entries))
    ensures multiset(Listed(Untrack(groups, entries), k))
            == multiset(Listed(groups, k)) - multiset(DeclaredUnder(entries, k))
    decreases |entries|
  {
    hide IndexOf, Listed, Discarded, Keyed;
    if |entries| > 0 {
      DiscardListed(groups, entries[0].key, entries[0].commands, k);
      UntrackListed(Discarded(groups, entries[0].key, entries[0].commands), entries[1..], k);
    }
  }

  /** Removing a handler undoes adding it, up to the order of the commands. */
  lemma UntrackUndoesTrack(groups: seq<CommandGroup>, entries: Declarations)
    requires Keyed(groups)
    ensures Keyed(Untrack(Track(groups, entries), entries))
    ensures SameCommands(Untrack(Track(groups, entries), entries), groups)
  {
    hide IndexOf, Listed, Track, Untrack, Keyed, DeclaredUnder;
    var tracked := Track(groups, entries);
    forall k: GroupKey
      ensures Keyed(Untrack(tracked, entries))
      ensures multiset(Listed(Untrack(tracked, entries), k)) == multiset(Listed(groups, k))
    {
      TrackListed(groups, entries, k);
      UntrackListed(tracked, entries, k);
    }
    TrackListed(groups, entries, GroupKey(None, None));
    UntrackListed(tracked, entries, GroupKey(None, None));
  }

  lemma RemoveOne(s: seq<Command>, c: Command)
    requires |s| > 0 && s[0] == c
    ensures RemoveEach(s, [c]) == s[1..]
  {
    assert [c][..0] == [];
  }

  lemma InOneGroup(key: GroupKey, listed: seq<Command>, commands: seq<Command>)
    ensures Collected([CommandGroup(key, listed)], key, commands) == [CommandGroup(key, listed + commands)]
    ensures RemoveEach(listed, commands) != [] ==>
              Discarded([CommandGroup(key, listed)], key, commands) == [CommandGroup(key, RemoveEach(listed, commands))]
  {
    hide IndexOf, RemoveEach;
  }

  lemma TrackOne(groups: seq<CommandGroup>, e: CommandGroup)
    ensures Track(groups, [e]) == Collected(groups, e.key, e.commands)
    ensures Untrack(groups, [e]) == Discarded(groups, e.key, e.commands)
  {
    assert [e][1..] == [];
  }

  /** The order can change: the first occurrence goes, not the one that was added. */
  lemma UntrackReorders(a: Command, b: Command, key: GroupKey)
    requires a != b
    ensures var groups := [CommandGroup(key, [a, b])];
            var entries := [CommandGroup(key, [a])];
            Listed(Untrack(Track(groups, entries), entries), key) == [b, a]
  {
    hide IndexOf, RemoveEach, RemoveFirst, Track, Untrack, Collected, Discarded;
    var entry := CommandGroup(key, [a]);
    InOneGroup(key, [a, b], [a]);
    assert [a, b] + [a] == [a, b, a];
    InOneGroup(key, [a, b, a], [a]);
    RemoveOne([a, b, a], a);
    assert [a, b, a][1..] == [b, a];
    TrackOne([CommandGroup(key, [a, b])], entry);
    TrackOne([CommandGroup(key, [a, b, a])], entry);
    ListedAt([CommandGroup(key, [b, a])], 0);
  }

  // ---------------------------------------------------------------- pruning

  /** The commands that are still declared, in their order. */
  function Kept(commands: seq<Command>, live: seq<Command>): (r: seq<Command>)
    ensures forall c :: c in r <==> c in commands && c in live
    ensures (forall c :: c in commands ==> c in live) ==> r == commands
  {
    if |commands| == 0 then []
    else if commands[0] in live then [commands[0]] + Kept(commands[1..], live)
    else Kept(commands[1..], live)
  }

  function Pruned(groups: seq<CommandGroup>, declared: seq<CommandGroup>): seq<CommandGroup> {
    if |groups| == 0 then []
    else
      var kept := Kept(groups[0].commands, Listed(declared, groups[0].key));
      (if kept == [] then [] else [CommandGroup(groups[0].key, kept)]) + Pruned(groups[1..], declared)
  }

  lemma PrunedOnward(groups: seq<CommandGroup>, i: nat, declared: seq<CommandGroup>)
    requires i <= |groups|
    ensures i == |groups| ==> Pruned(groups[i..], declared) == []
    ensures i < |groups| ==>
              var kept := Kept(groups[i].commands, Listed(declared, groups[i].key));
              Pruned(groups[i..], declared)
              == (if kept == [] then [] else [CommandGroup(groups[i].key, kept)]) + Pruned(groups[i + 1..], declared)
  {
    assert i < |groups| ==> groups[i..][0] == groups[i] && groups[i..][1..] == groups[i + 1..];
  }

  lemma {:induction false} PrunedKeys(groups: seq<CommandGroup>, declared: seq<CommandGroup>)
    requires Keyed(groups)
    ensures Keyed(Pruned(groups, declared))
    ensures forall g :: g in Pruned(groups, declared) ==>
              g.commands != [] && exists h :: h in groups && h.key == g.key
  {
    if |groups| > 0 {
      PrunedKeys(groups[1..], declared);
      var rest := Pruned(groups[1..], declared);
      forall g | g in rest ensures g.key != groups[0].key && exists h :: h in groups && h.key == g.key {
        var h :| h in groups[1..] && h.key == g.key;
        assert h in groups;
      }
      assert groups[0] in groups;
    }
  }

  lemma {:induction false} PrunedGrows(groups: seq<CommandGroup>, g: CommandGroup, declared: seq<CommandGroup>)
    ensures var kept := Kept(g.commands, Listed(declared, g.key));
            Pruned(groups + [g], declared)
            == Pruned(groups, declared) + if kept == [] then [] else [CommandGroup(g.key, kept)]
  {
    hide Kept, Listed, Pruned;
    var longer := groups + [g];
    assert longer[0..] == longer && groups[0..] == groups;
    PrunedOnward(longer, 0, declared);
    PrunedOnward(groups, 0, declared);
    if |groups| == 0 {
      assert longer[1..] == groups;
    } else {
      assert longer[1..] == groups[1..] + [g];
      PrunedGrows(groups[1..], g, declared);
    }
  }

  /** The groups stay in their order: each that keeps a command stays with what it keeps, and no other. `at` says
      where they stood. */
  lemma {:induction false} PrunedInPlace(groups: seq<CommandGroup>, declared: seq<CommandGroup>) returns (at: seq<nat>)
    ensures |at| == |Pruned(groups, declared)| && forall m, n :: 0 <= m < n < |at| ==> at[m] < at[n]
    ensures forall n :: 0 <= n < |at| ==>
              && at[n] < |groups|
              && var g := groups[at[n]];
                 Pruned(groups, declared)[n] == CommandGroup(g.key, Kept(g.commands, Listed(declared, g.key)))
    ensures forall i :: 0 <= i < |groups| ==>
              (i in at <==> exists c :: c in groups[i].commands && c in Listed(declared, groups[i].key))
    decreases |groups|
  {
    hide Listed, Pruned;
    if |groups| == 0 {
      at := [];
      assert Pruned([], declared) == [] by { PrunedNone(declared); }
    } else {
      var front, last := groups[..|groups| - 1], groups[|groups| - 1];
      at := PrunedInPlace(front, declared);
      PrunedGrows(front, last, declared);
      assert groups == front + [last];
      var kept := Kept(last.commands, Listed(declared, last.key));
      assert kept != [] ==> kept[0] in kept;
      if kept != [] {
        at := at + [|front|];
      }
    }
  }

  lemma PrunedNone(declared: seq<CommandGroup>)
    ensures Pruned([], declared) == []
  {
  }

  lemma ListedAbsent(groups: seq<CommandGroup>, key: GroupKey)
    requires forall g :: g in groups ==> g.key != key
    ensures Listed(groups, key) == []
  {
  }

  /** Under every key, pruning keeps exactly the declared commands of the list, in order. */
  lemma {:induction false} PrunedListed(groups: seq<CommandGroup>, declared: seq<CommandGroup>, k: GroupKey)
    requires Keyed(groups)
    ensures Listed(Pruned(groups, declared), k) == Kept(Listed(groups, k), Listed(declared, k))
  {
    hide IndexOf, Kept, Listed;
    if |groups| == 0 {
      ListedAbsent(groups, k);
      assert Kept([], Listed(declared, k)) == [] by { KeptNone(Listed(declared, k)); }
    } else {
      var rest := Pruned(groups[1..], declared);
      PrunedListed(groups[1..], declared, k);
      PrunedKeys(groups[1..], declared);
      ListedOnward(groups, k);
      var kept := Kept(groups[0].commands, Listed(declared, groups[0].key));
      if kept != [] {
        assert Pruned(groups, declared) == [CommandGroup(groups[0].key, kept)] + rest;
        ListedOnward(Pruned(groups, declared), k);
        assert Pruned(groups, declared)[1..] == rest;
      } else {
        assert Pruned(groups, declared) == rest;
        if k == groups[0].key {
          forall g | g in rest ensures g.key != k {
            var h :| h in groups[1..] && h.key == g.key;
          }
          ListedAbsent(rest, k);
        }
      }
    }
  }

  lemma KeptNone(live: seq<Command>)
    ensures Kept([], live) == []
  {
  }

  /** A list whose groups are all declared and not empty is left as it is. */
  lemma {:induction false} PruneNothing(groups: seq<CommandGroup>, declared: seq<CommandGroup>)
    requires forall g :: g in groups ==>
               g.commands != [] && forall c :: c in g.commands ==> c in Listed(declared, g.key)
    ensures Pruned(groups, declared) == groups
  {
    if |groups| > 0 {
      PruneNothing(groups[1..], declared);
    }
  }

  lemma PruneIdempotent(groups: seq<CommandGroup>, declared: seq<CommandGroup>)
    requires Keyed(groups)
    ensures Pruned(Pruned(groups, declared), declared) == Pruned(groups, declared)
  {
    var once := Pruned(groups, declared);
    PrunedKeys(groups, declared);
    forall g | g in once ensures g.commands != [] && forall c :: c in g.commands ==> c in Listed(declared, g.key) {
      var i :| 0 <= i < |once| && once[i] == g;
      ListedAt(once, i);
      PrunedListed(groups, declared, g.key);
    }
    PruneNothing(once, declared);
  }

  /** After pruning, a command is listed exactly when it was collected and some registered handler
      declares it under that very key. */
  lemma PruneExact(groups: seq<CommandGroup>, entries: Declarations, k: GroupKey, c: Command)
    requires Keyed(groups)
    ensures c in Listed(Pruned(groups, Track([], entries)), k)
            <==> c in Listed(groups, k) && exists e :: e in entries && e.key == k && c in e.commands
  {
    PrunedListed(groups, Track([], entries), k);
    TrackListed([], entries, k);
    DeclaredMeaning(entries, k, c);
  }

  lemma {:induction false} DeclaredMeaning(entries: Declarations, k: GroupKey, c: Command)
    ensures c in DeclaredUnder(entries, k) <==> exists e :: e in entries && e.key == k && c in e.commands
  {
    if |entries| > 0 {
      DeclaredMeaning(entries[1..], k, c);
      assert entries[0] in entries;
      assert forall e :: e in entries <==> e == entries[0] || e in entries[1..];
    }
  }

  // ---------------------------------------------------------------- publishing

  /** The first occurrence of each command. */
  function Firsts(commands: seq<Command>): (r: seq<Command>)
    ensures forall c :: c in r <==> c in commands
    ensures Distinct(r)
  {
    if |commands| == 0 then []
    else
      var last := commands[|commands| - 1];
      var firsts := Firsts(commands[..|commands| - 1]);
      if last in firsts then firsts else firsts + [last]
  }

  function FirstAt(commands: seq<Command>, c: Command): (i: nat)
    requires c in commands
    ensures i < |commands| && commands[i] == c && c !in commands[..i]
  {
    if commands[0] == c then 0
    else
      var i := 1 + FirstAt(commands[1..], c);
      assert commands[..i] == [commands[0]] + commands[1..][..i - 1];
      i
  }

  /** They come in the order in which they first occur. */
  lemma {:induction false} FirstsInOrder(commands: seq<Command>, i: nat, j: nat)
    requires i < j < |Firsts(commands)|
    ensures FirstAt(commands, Firsts(commands)[i]) < FirstAt(commands, Firsts(commands)[j])
  {
    var n := |commands| - 1;
    var front, last := commands[..n], commands[n];
    var a, b := Firsts(commands)[i], Firsts(commands)[j];
    assert commands == front + [last];
    assert a in front;
    FirstAtFront(front, last, a);
    if j < |Firsts(front)| {
      FirstsInOrder(front, i, j);
      FirstAtFront(front, last, b);
    } else {
      assert b == last && b !in front;
    }
  }

  lemma FirstAtFront(front: seq<Command>, last: Command, c: Command)
    requires c in front
    ensures FirstAt(front + [last], c) == FirstAt(front, c)
  {
    var i, j := FirstAt(front + [last], c), FirstAt(front, c);
    assert (front + [last])[..j] == front[..j];
    assert i >= j;
    assert (front + [last])[j] == c;
  }

  /** One call per group that has commands. */
  function Calls(groups: seq<CommandGroup>): seq<CommandGroup> {
    if |groups| == 0 then []
    else
      var g := groups[|groups| - 1];
      Calls(groups[..|groups| - 1]) + if Firsts(g.commands) == [] then [] else [CommandGroup(g.key, Firsts(g.commands))]
  }

  /** A pruned list has one call per group. */
  lemma {:induction false} CallsExact(groups: seq<CommandGroup>)
    requires forall g :: g in groups ==> g.commands != []
    ensures |Calls(groups)| == |groups|
    ensures forall i :: 0 <= i < |groups| ==>
              Calls(groups)[i] == CommandGroup(groups[i].key, Firsts(groups[i].commands))
  {
    if |groups| > 0 {
      CallsExact(groups[..|groups| - 1]);
      var g := groups[|groups| - 1];
      assert g in groups && g.commands[0] in Firsts(g.commands);
    }
  }

  /** The commands published under a key: those collected and still declared, each once. */
  lemma CallsPublish(groups: seq<CommandGroup>, entries: Declarations, k: GroupKey)
    requires Keyed(groups)
    ensures var calls := Calls(Pruned(groups, Track([], entries)));
            Keyed(calls) && Listed(calls, k) == Firsts(Kept(Listed(groups, k), DeclaredUnder(entries, k)))
  {
    hide IndexOf, Track, Pruned, Kept, Calls;
    var pruned := Pruned(groups, Track([], entries));
    PrunedKeys(groups, Track([], entries));
    CallsExact(pruned);
    PrunedListed(groups, Track([], entries), k);
    TrackListed([], entries, k);
    assert Listed([], k) + DeclaredUnder(entries, k) == DeclaredUnder(entries, k);
    var i := IndexOf(pruned, k);
    if i < |pruned| {
      ListedAt(Calls(pruned), i);
      ListedAt(pruned, i);
    } else {
      assert forall j :: 0 <= j < |pruned| ==> Calls(pruned)[j].key == pruned[j].key;
      assert IndexOf(Calls(pruned), k) == |pruned|;
    }
  }

  // ---------------------------------------------------------------- the mixin

  lemma NothingTracked()
    ensures Track([], []) == [] && Flat<CommandGroup>([]) == [] && Flat<Declarations>([]) == []
  {
  }

  lemma {:induction false} TrackGrows(groups: seq<CommandGroup>, entries: Declarations, e: CommandGroup)
    ensures Track(groups, entries + [e]) == Collected(Track(groups, entries), e.key, e.commands)
    decreases |entries|
  {
    hide Collected;
    if |entries| > 0 {
      TrackGrows(Collected(groups, entries[0].key, entries[0].commands), entries[1..], e);
      assert (entries + [e])[1..] == entries[1..] + [e];
    } else {
      assert entries + [e] == [e] && [e][1..] == [];
    }
  }

  /** `next(...)` over the group list. */
  method FindGroup(groups: seq<CommandGroup>, key: GroupKey) returns (i: nat)
    ensures i == IndexOf(groups, key)
  {
    i := 0;
    while i < |groups| && groups[i].key != key
      invariant i <= |groups|
      invariant forall j :: 0 <= j < i ==> groups[j].key != key
    {
      i := i + 1;
    }
  }

  /** Extends the first group with this key, or a new one. */
  method Extend(groups: seq<CommandGroup>, key: GroupKey, commands: seq<Command>) returns (r: seq<CommandGroup>)
    ensures r == Collected(groups, key, commands)
  {
    hide IndexOf;
    var i := FindGroup(groups, key);
    r := groups;
    if i == |groups| {
      r := r + [CommandGroup(key, [])];
    }
    r := r[i := CommandGroup(key, r[i].commands + commands)];
    assert i == |groups| ==> [] + commands == commands && r == groups + [CommandGroup(key, commands)];
  }

  class BotCommandsMixin {
    var groups: seq<CommandGroup>

    constructor ()
      ensures groups == []
    {
      groups := [];
    }

    /** `_collect_bot_commands` */
    method Collect(key: GroupKey, commands: seq<Command>)
      modifies this
      ensures groups == Collected(old(groups), key, commands)
    {
      groups := Extend(groups, key, commands);
    }

    /** `_discard_bot_commands` */
    method Discard(key: GroupKey, commands: seq<Command>)
      modifies this
      ensures groups == Discarded(old(groups), key, commands)
    {
      hide IndexOf, RemoveFirst, RemoveEach;
      var i := FindGroup(groups, key);
      if i == |groups| {
        return;
      }
      var kept := groups[i].commands;
      RemoveNone(kept);
      for n := 0 to |commands|
        invariant groups == old(groups)
        invariant kept == RemoveEach(groups[i].commands, commands[..n])
      {
        RemoveEachGrows(groups[i].commands, commands, n);
        kept := RemoveFirst(kept, commands[n]);
      }
      assert commands[..|commands|] == commands;
      groups := groups[i := CommandGroup(key, kept)];
      if kept == [] {
        groups := groups[..i] + groups[i + 1..];
      }
    }

    /** `_prune_bot_commands`: `registered` is the dispatcher's groups of handlers. */
    method Prune(registered: seq<seq<Declarations>>)
      modifies this
      ensures groups == Pruned(old(groups), Track([], Flat(Flat(registered))))
    {
      hide Track, Flat, Kept, Listed, Pruned;
      var declared := Declare(registered);
      if declared == [] {
        groups := [];
        NothingDeclared(old(groups));
        return;
      }
      PrunedOnward(groups, |groups|, declared);
      for i := |groups| downto 0
        invariant groups == old(groups)[..i] + Pruned(old(groups)[i..], declared)
      {
        ghost var was := old(groups)[i];
        assert groups[i] == was;
        PrunedOnward(old(groups), i, declared);
        var kept := Kept(groups[i].commands, Listed(declared, groups[i].key));
        groups := groups[i := CommandGroup(groups[i].key, kept)];
        if kept == [] {
          groups := groups[..i] + groups[i + 1..];
        }
      }
    }

    /** What the registered handlers declare, grouped the same way. */
    static method Declare(registered: seq<seq<Declarations>>) returns (declared: seq<CommandGroup>)
      ensures declared == Track([], Flat(Flat(registered)))
    {
      hide Track, Collected, Flat;
      declared := [];
      ghost var handlers: seq<Declarations>, entries: Declarations := [], [];
      NothingTracked();
      for i := 0 to |registered|
        invariant handlers == Flat(registered[..i]) && entries == Flat(handlers)
        invariant declared == Track([], entries)
      {
        ghost var before := handlers;
        for j := 0 to |registered[i]|
          invariant handlers == before + registered[i][..j] && entries == Flat(handlers)
          invariant declared == Track([], entries)
        {
          var handler := registered[i][j];
          ghost var seen := entries;
          for k := 0 to |handler|
            invariant entries == seen + handler[..k]
            invariant declared == Track([], entries)
          {
            declared := Extend(declared, handler[k].key, handler[k].commands);
            TrackGrows([], entries, handler[k]);
            assert handler[..k + 1] == handler[..k] + [handler[k]];
            entries := entries + [handler[k]];
          }
          assert handler[..|handler|] == handler;
          FlatGrows(handlers, handler);
          assert registered[i][..j + 1] == registered[i][..j] + [handler];
          handlers := handlers + [handler];
        }
        assert registered[i][..|registered[i]|] == registered[i];
        assert registered[..i + 1] == registered[..i] + [registered[i]];
        FlatGrows(registered[..i], registered[i]);
      }
      assert registered[..|registered|] == registered;
    }

    /** `push_bot_commands`: prune, then one call per group, its commands without repeats. */
    method Push(registered: seq<seq<Declarations>>) returns (calls: seq<CommandGroup>)
      modifies this
      ensures groups == Pruned(old(groups), Track([], Flat(Flat(registered))))
      ensures calls == Calls(groups)
    {
      Prune(registered);
      calls := [];
      for i := 0 to |groups|
        invariant groups == Pruned(old(groups), Track([], Flat(Flat(registered))))
        invariant calls == Calls(groups[..i])
      {
        var unique := Dedupe(groups[i].commands);
        assert groups[..i + 1][..i] == groups[..i];
        if unique == [] {
          continue;
        }
        calls := calls + [CommandGroup(groups[i].key, unique)];
      }
      assert groups[..|groups|] == groups;
    }

    static method Dedupe(commands: seq<Command>) returns (unique: seq<Command>)
      ensures unique == Firsts(commands)
    {
      unique := [];
      for i := 0 to |commands|
        invariant unique == Firsts(commands[..i])
      {
        assert commands[..i + 1][..i] == commands[..i];
        if commands[i] !in unique {
          unique := unique + [commands[i]];
        }
      }
      assert commands[..|commands|] == commands;
    }
  }

  lemma {:induction false} KeptUndeclared(commands: seq<Command>)
    ensures Kept(commands, []) == []
  {
    if |commands| > 0 {
      KeptUndeclared(commands[1..]);
    }
  }

  lemma {:induction false} NothingDeclared(groups: seq<CommandGroup>)
    ensures Pruned(groups, []) == []
  {
    if |groups| > 0 {
      assert Kept(groups[0].commands, []) == [] by { KeptUndeclared(groups[0].commands); }
      NothingDeclared(groups[1..]);
    }
  }
}
