/** pyroflow/client.py, `BotCommandsMixin`: exactly when removing a handler restores the command list it
    was added to, order included. A command is removed at its first occurrence, not where it was added. */
module CommandOrders {
  import opened Wrappers
  import opened BotCommands

  // ---------------------------------------------------------------- one list

  lemma RemoveFirstStep(s: seq<Command>, c: Command)
    requires |s| > 0
    ensures RemoveFirst(s, c) == if s[0] == c then s[1..] else [s[0]] + RemoveFirst(s[1..], c)
  {
  }

  lemma {:induction false} RemoveFirstPast(l: seq<Command>, rest: seq<Command>, c: Command)
    ensures RemoveFirst(l + rest, c) == if c in l then RemoveFirst(l, c) + rest else l + RemoveFirst(rest, c)
  {
    hide RemoveFirst;
    if |l| == 0 {
      assert l + rest == rest && l + RemoveFirst(rest, c) == RemoveFirst(rest, c);
    } else {
      RemoveFirstStep(l + rest, c);
      RemoveFirstStep(l, c);
      assert (l + rest)[1..] == l[1..] + rest;
      if l[0] != c {
        RemoveFirstPast(l[1..], rest, c);
        assert l == [l[0]] + l[1..];
        if c in l {
          assert c in l[1..];
          assert [l[0]] + (RemoveFirst(l[1..], c) + rest) == [l[0]] + RemoveFirst(l[1..], c) + rest;
        } else {
          assert [l[0]] + (l[1..] + RemoveFirst(rest, c)) == [l[0]] + l[1..] + RemoveFirst(rest, c);
        }
      }
    }
  }

  /** One command added at the end and removed again leaves the list as it was exactly when its first
      occurrence there, if any, is followed by nothing else. */
  lemma {:induction false} RemoveAppended(l: seq<Command>, c: Command)
    ensures RemoveFirst(l + [c], c) == l <==> forall j :: 0 <= j < |l| && c in l[..j] ==> l[j] == c
  {
    var tail := l + [c];
    if |l| > 0 {
      assert tail[1..] == l[1..] + [c];
      if l[0] == c {
        assert forall j :: 0 < j < |l| ==> l[..j][0] == c;
        ShiftedAlike(l, c);
      } else {
        RemoveAppended(l[1..], c);
        assert l == [l[0]] + l[1..];
        forall j | 0 < j < |l| ensures c in l[..j] <==> c in l[1..][..j - 1] {
          assert l[..j] == [l[0]] + l[1..][..j - 1];
        }
        assert forall j :: 0 <= j < |l[1..]| ==> (c in l[1..][..j] <==> c in l[..j + 1]);
      }
    }
  }

  lemma {:induction false} ShiftedAlike(l: seq<Command>, c: Command)
    requires |l| > 0 && l[0] == c
    ensures l[1..] + [c] == l <==> forall j :: 0 <= j < |l| ==> l[j] == c
  {
    if l[1..] + [c] == l {
      forall j | 0 <= j < |l| ensures l[j] == c {
        AlikeUpTo(l, c, j);
      }
    }
  }

  lemma {:induction false} AlikeUpTo(l: seq<Command>, c: Command, j: nat)
    requires j < |l| && l[0] == c && l[1..] + [c] == l
    ensures l[j] == c
  {
    if j > 0 {
      AlikeUpTo(l, c, j - 1);
      assert (l[1..] + [c])[j - 1] == l[j];
    }
  }

  lemma {:induction false} RemoveEachTwice(s: seq<Command>, a: seq<Command>, b: seq<Command>)
    ensures RemoveEach(RemoveEach(s, a), b) == RemoveEach(s, a + b)
    decreases |b|
  {
    if |b| == 0 {
      assert a + b == a;
    } else {
      var front, last := b[..|b| - 1], b[|b| - 1];
      RemoveEachTwice(s, a, front);
      assert (a + b)[..|a + b| - 1] == a + front;
    }
  }

  lemma RemoveEachLength(s: seq<Command>, cs: seq<Command>)
    ensures |RemoveEach(s, cs)| + |cs| >= |s|
    ensures (exists c :: c in s && c in cs) ==> |RemoveEach(s, cs)| < |s|
  {
    RemoveEachMeaning(s, cs);
    assert |multiset(s) - multiset(cs)| + |multiset(cs)| >= |multiset(s)|;
    if c :| c in s && c in cs {
      assert c in multiset(s) && c in multiset(cs);
      assert multiset(s) - multiset(cs) <= multiset(s) - multiset{c};
    }
  }

  lemma RemoveFirstAround(a: seq<Command>, u: Command, z: seq<Command>, c: Command) returns (rest: seq<Command>)
    requires u != c
    ensures RemoveFirst(a + [u] + z, c) == RemoveFirst(a, c) + [u] + rest
    ensures forall x :: x in rest ==> x in z
  {
    hide RemoveFirst;
    assert a + [u] + z == a + ([u] + z);
    RemoveFirstPast(a, [u] + z, c);
    RemoveFirstPast([u], z, c);
    if c in a {
      rest := z;
      assert RemoveFirst(a, c) + ([u] + z) == RemoveFirst(a, c) + [u] + z;
    } else {
      AbsentStays(a, c);
      rest := RemoveFirst(z, c);
      assert a + ([u] + rest) == a + [u] + rest;
      RemoveFirstMeaning(z, c);
      forall x | x in rest ensures x in z {
        assert x in multiset(rest) && x in multiset(z);
      }
    }
  }

  /** Removals never move anything across a command that is not among them. */
  lemma {:induction false} RemoveEachAround(a: seq<Command>, u: Command, z: seq<Command>, cs: seq<Command>)
    returns (rest: seq<Command>)
    requires u !in cs
    ensures RemoveEach(a + [u] + z, cs) == RemoveEach(a, cs) + [u] + rest
    ensures forall c :: c in rest ==> c in z
    decreases |cs|
  {
    if |cs| == 0 {
      RemoveNone(a + [u] + z);
      RemoveNone(a);
      rest := z;
    } else {
      var front, last := cs[..|cs| - 1], cs[|cs| - 1];
      var before := RemoveEachAround(a, u, z, front);
      RemoveEachGrows(a + [u] + z, cs, |cs| - 1);
      RemoveEachGrows(a, cs, |cs| - 1);
      assert cs[..|cs|] == cs;
      rest := RemoveFirstAround(RemoveEach(a, front), u, before, last);
    }
  }

  lemma {:induction false} LastUndeclared(l: seq<Command>, cs: seq<Command>, j: nat) returns (k: nat)
    requires j < |l| && l[j] !in cs
    ensures j <= k < |l| && l[k] !in cs && forall m :: k < m < |l| ==> l[m] in cs
    decreases |l| - j
  {
    if m :| j < m < |l| && l[m] !in cs {
      k := LastUndeclared(l, cs, m);
    } else {
      k := j;
    }
  }

  /** A listed command that is declared, with one that is not somewhere behind it: the order changes. */
  lemma OrderLost(l: seq<Command>, cs: seq<Command>, i: nat, j: nat)
    requires i < j < |l| && l[i] in cs && l[j] !in cs
    ensures RemoveEach(l + cs, cs) != l
  {
    hide RemoveEach;
    var k := LastUndeclared(l, cs, j);
    var a, z := l[..k], l[k + 1..] + cs;
    assert l + cs == a + [l[k]] + z;
    var rest := RemoveEachAround(a, l[k], z, cs);
    assert a[i] in cs && a[i] in a;
    RemoveEachLength(a, cs);
    RemoveEachLength(l + cs, cs);
    assert RemoveEach(l + cs, cs)[k] in rest;
    assert forall c :: c in rest ==> c in cs;
  }

  /** No declared command is listed yet: the order comes back. */
  lemma {:induction false} OrderKept(l: seq<Command>, cs: seq<Command>, n: nat)
    requires n <= |cs| && forall c :: c in cs ==> c !in l
    ensures RemoveEach(l + cs, cs[..n]) == l + cs[n..]
  {
    if n == 0 {
      RemoveNone(l + cs);
    } else {
      OrderKept(l, cs, n - 1);
      RemoveEachGrows(l + cs, cs, n - 1);
      RemoveFirstPast(l, cs[n - 1..], cs[n - 1]);
      assert cs[n - 1..][0] == cs[n - 1] && cs[n - 1..][1..] == cs[n..];
    }
  }

  /** The commands of a list that are not declared, in order. */
  function Others(l: seq<Command>, cs: seq<Command>): (r: seq<Command>)
    ensures forall c :: c in r <==> c in l && c !in cs
  {
    if |l| == 0 then [] else (if l[0] in cs then [] else [l[0]]) + Others(l[1..], cs)
  }

  lemma {:induction false} OthersWithout(l: seq<Command>, cs: seq<Command>, c: Command)
    requires Distinct(l) && c !in cs
    ensures RemoveFirst(Others(l, cs), c) == Others(l, cs + [c])
  {
    hide RemoveFirst;
    if |l| == 0 {
      AbsentStays([], c);
    } else {
      OthersWithout(l[1..], cs, c);
      var later := Others(l[1..], cs);
      if l[0] == c {
        assert c !in l[1..];
        AbsentStays(later, c);
        FirstGoes(c, later);
      } else if l[0] !in cs {
        RemoveFirstPast([l[0]], later, c);
      } else {
        assert [] + later == later;
      }
      assert [] + Others(l[1..], cs + [c]) == Others(l[1..], cs + [c]);
    }
  }

  lemma {:induction false} AbsentStays(s: seq<Command>, c: Command)
    requires c !in s
    ensures RemoveFirst(s, c) == s
  {
    RemoveFirstPast(s, [], c);
    assert s + [] == s;
  }

  lemma {:induction false} KeptGrows(s: seq<Command>, c: Command, live: seq<Command>)
    ensures Kept(s + [c], live) == Kept(s, live) + (if c in live then [c] else [])
  {
    if |s| > 0 {
      KeptGrows(s[1..], c, live);
      assert (s + [c])[1..] == s[1..] + [c];
    } else {
      assert s + [c] == [c] && [c][1..] == [];
    }
  }

  lemma MovesBack(others: seq<Command>, kept: seq<Command>, c: Command, rest: seq<Command>)
    ensures c in others ==>
              RemoveFirst(others + (kept + ([c] + rest)), c) == RemoveFirst(others, c) + ((kept + [c]) + rest)
    ensures c !in others && c !in kept ==>
              RemoveFirst(others + (kept + ([c] + rest)), c) == others + (kept + rest)
  {
    RemoveFirstPast(others, kept + ([c] + rest), c);
    RemoveFirstPast(kept, [c] + rest, c);
    FirstGoes(c, rest);
    assert kept + ([c] + rest) == (kept + [c]) + rest;
  }

  lemma DistinctStep(l: seq<Command>, done: seq<Command>, c: Command, rest: seq<Command>)
    requires Distinct(l) && c !in done
    ensures RemoveFirst(Others(l, done) + (Kept(done, l) + ([c] + rest)), c)
            == Others(l, done + [c]) + (Kept(done + [c], l) + rest)
  {
    hide RemoveFirst, Others, Kept, Distinct;
    OthersWithout(l, done, c);
    KeptGrows(done, c, l);
    MovesBack(Others(l, done), Kept(done, l), c, rest);
    if c !in l {
      AbsentStays(Others(l, done), c);
      assert Kept(done, l) + [] == Kept(done, l);
    }
  }

  /** Where neither list repeats itself: the declared commands move to the end, in the order declared. */
  lemma {:induction false} DistinctOrder(l: seq<Command>, cs: seq<Command>, n: nat)
    requires Distinct(l) && Distinct(cs) && n <= |cs|
    ensures RemoveEach(l + cs, cs[..n]) == Others(l, cs[..n]) + (Kept(cs[..n], l) + cs[n..])
  {
    hide RemoveFirst, RemoveEach, Others, Kept;
    if n == 0 {
      RemoveNone(l + cs);
      NothingDeclaredHere(l);
      assert [] + cs == cs && cs[..0] == [] && cs[0..] == cs;
    } else {
      DistinctOrder(l, cs, n - 1);
      RemoveEachGrows(l + cs, cs, n - 1);
      assert cs[n - 1] !in cs[..n - 1] && cs[..n] == cs[..n - 1] + [cs[n - 1]] && cs[n - 1..] == [cs[n - 1]] + cs[n..];
      DistinctStep(l, cs[..n - 1], cs[n - 1], cs[n..]);
    }
  }

  lemma FirstGoes(c: Command, rest: seq<Command>)
    ensures RemoveFirst([c] + rest, c) == rest
  {
  }

  lemma {:induction false} NothingDeclaredHere(l: seq<Command>)
    ensures Others(l, []) == l && Kept([], l) == []
  {
    if |l| > 0 {
      NothingDeclaredHere(l[1..]);
    }
  }

  // ---------------------------------------------------------------- the groups

  predicate Declares(entries: Declarations, key: GroupKey) {
    |entries| > 0 && (entries[0].key == key || Declares(entries[1..], key))
  }

  lemma {:induction false} UndeclaredKey(entries: Declarations, key: GroupKey)
    requires !Declares(entries, key)
    ensures DeclaredUnder(entries, key) == []
  {
    if |entries| > 0 {
      UndeclaredKey(entries[1..], key);
    }
  }

  lemma CollectShape(groups: seq<CommandGroup>, key: GroupKey, commands: seq<Command>)
    requires Keyed(groups)
    ensures var t := Collected(groups, key, commands);
            && Keyed(t) && |t| >= |groups|
            && (forall i :: 0 <= i < |groups| ==>
                  t[i] == CommandGroup(groups[i].key,
                                       groups[i].commands + if groups[i].key == key then commands else []))
            && (forall j :: |groups| <= j < |t| ==> t[j].key == key)
  {
    CollectListed(groups, key, commands, key);
    hide IndexOf;
    var i := IndexOf(groups, key);
    forall j | 0 <= j < |groups| && j != i ensures groups[j].key != key {
    }
  }

  /** Tracking appends to the groups that are there, and puts new ones behind them. */
  lemma {:induction false} TrackShape(groups: seq<CommandGroup>, entries: Declarations)
    requires Keyed(groups)
    ensures var t := Track(groups, entries);
            && Keyed(t) && |t| >= |groups|
            && (forall i :: 0 <= i < |groups| ==>
                  t[i] == CommandGroup(groups[i].key, groups[i].commands + DeclaredUnder(entries, groups[i].key)))
            && (forall j :: |groups| <= j < |t| ==> Declares(entries, t[j].key))
    decreases |entries|
  {
    hide Collected;
    if |entries| > 0 {
      CollectShape(groups, entries[0].key, entries[0].commands);
      TrackShape(Collected(groups, entries[0].key, entries[0].commands), entries[1..]);
    }
  }

  /** What the new groups hold is what was declared for them. */
  lemma TrackedNew(groups: seq<CommandGroup>, entries: Declarations, j: nat)
    requires Keyed(groups) && |groups| <= j < |Track(groups, entries)|
    ensures Track(groups, entries)[j].commands == DeclaredUnder(entries, Track(groups, entries)[j].key)
  {
    TrackShape(groups, entries);
    hide Track, IndexOf;
    var t := Track(groups, entries);
    TrackListed(groups, entries, t[j].key);
    ListedAt(t, j);
    forall g | g in groups ensures g.key != t[j].key {
      var i :| 0 <= i < |groups| && groups[i] == g;
      assert t[i].key == g.key;
    }
    ListedAbsent(groups, t[j].key);
    assert [] + DeclaredUnder(entries, t[j].key) == DeclaredUnder(entries, t[j].key);
  }

  /** A group that survives all removals of `rest`. */
  predicate Outlasts(g: CommandGroup, rest: Declarations) {
    Declares(rest, g.key) ==> |g.commands| > |DeclaredUnder(rest, g.key)|
  }

  /** A group that `rest` removes to the last command. */
  predicate Vanishes(g: CommandGroup, rest: Declarations) {
    Declares(rest, g.key) && multiset(g.commands) == multiset(DeclaredUnder(rest, g.key))
  }

  lemma DiscardOutlasts(g: CommandGroup, rest: Declarations)
    requires |rest| > 0 && g.key == rest[0].key && Outlasts(g, rest)
    ensures RemoveEach(g.commands, rest[0].commands) != []
    ensures Outlasts(CommandGroup(g.key, RemoveEach(g.commands, rest[0].commands)), rest[1..])
    ensures RemoveEach(RemoveEach(g.commands, rest[0].commands), DeclaredUnder(rest[1..], g.key))
            == RemoveEach(g.commands, DeclaredUnder(rest, g.key))
  {
    RemoveEachLength(g.commands, rest[0].commands);
    RemoveEachTwice(g.commands, rest[0].commands, DeclaredUnder(rest[1..], g.key));
  }

  lemma DiscardVanishes(g: CommandGroup, rest: Declarations)
    requires |rest| > 0 && g.key == rest[0].key && Vanishes(g, rest)
    ensures var kept := RemoveEach(g.commands, rest[0].commands);
            kept != [] ==> Vanishes(CommandGroup(g.key, kept), rest[1..])
  {
    var kept, later := RemoveEach(g.commands, rest[0].commands), DeclaredUnder(rest[1..], g.key);
    RemoveEachMeaning(g.commands, rest[0].commands);
    assert multiset(rest[0].commands + later) == multiset(rest[0].commands) + multiset(later);
    assert multiset(kept) == multiset(later);
    if kept != [] {
      assert kept[0] in multiset(later);
      if !Declares(rest[1..], g.key) {
        UndeclaredKey(rest[1..], g.key);
      }
    }
  }

  lemma OtherKeyLater(g: CommandGroup, rest: Declarations)
    requires |rest| > 0 && g.key != rest[0].key
    ensures DeclaredUnder(rest[1..], g.key) == DeclaredUnder(rest, g.key)
    ensures Outlasts(g, rest) == Outlasts(g, rest[1..]) && Vanishes(g, rest) == Vanishes(g, rest[1..])
  {
    assert [] + DeclaredUnder(rest[1..], g.key) == DeclaredUnder(rest[1..], g.key);
  }

  ghost predicate Shaped(t: seq<CommandGroup>, n: nat, rest: Declarations) {
    && Keyed(t) && n <= |t|
    && (forall i :: 0 <= i < n ==> Outlasts(t[i], rest))
    && (forall j :: n <= j < |t| ==> Vanishes(t[j], rest))
  }

  /** One discard, seen on the list: nothing under the key, or the group shrinks, or it goes. */
  lemma DiscardCases(t: seq<CommandGroup>, key: GroupKey, commands: seq<Command>) returns (cut: nat)
    requires Keyed(t)
    ensures cut <= |t| && (cut < |t| ==> t[cut].key == key) && forall i :: 0 <= i < |t| && i != cut ==> t[i].key != key
    ensures var d := Discarded(t, key, commands);
            && Keyed(d)
            && (cut == |t| ==> d == t)
            && (cut < |t| ==>
                  var kept := RemoveEach(t[cut].commands, commands);
                  d == if kept == [] then t[..cut] + t[cut + 1..] else t[cut := CommandGroup(key, kept)])
  {
    cut := IndexOf(t, key);
    DiscardListed(t, key, commands, key);
    hide IndexOf, RemoveEach;
    forall i | 0 <= i < |t| && i != cut ensures t[i].key != key {
    }
  }

  lemma OthersLater(t: seq<CommandGroup>, n: nat, rest: Declarations, cut: nat)
    requires Shaped(t, n, rest) && |rest| > 0 && forall i :: 0 <= i < |t| && i != cut ==> t[i].key != rest[0].key
    ensures forall i :: 0 <= i < n && i != cut ==> Outlasts(t[i], rest[1..])
    ensures forall i :: n <= i < |t| && i != cut ==> Vanishes(t[i], rest[1..])
    ensures forall i :: 0 <= i < n && i != cut ==> DeclaredUnder(rest[1..], t[i].key) == DeclaredUnder(rest, t[i].key)
  {
    hide Outlasts, Vanishes, Declares, DeclaredUnder;
    forall i | 0 <= i < |t| && i != cut
      ensures DeclaredUnder(rest[1..], t[i].key) == DeclaredUnder(rest, t[i].key)
      ensures Outlasts(t[i], rest) == Outlasts(t[i], rest[1..]) && Vanishes(t[i], rest) == Vanishes(t[i], rest[1..])
    {
      OtherKeyLater(t[i], rest);
    }
  }

  /** One discard: a surviving group shrinks, a vanishing one shrinks or goes, the rest stay put. */
  lemma DiscardShape(t: seq<CommandGroup>, n: nat, rest: Declarations)
    requires Shaped(t, n, rest) && |rest| > 0
    ensures var d := Discarded(t, rest[0].key, rest[0].commands);
            && Shaped(d, n, rest[1..])
            && forall i :: 0 <= i < n ==>
                 && d[i].key == t[i].key
                 && RemoveEach(d[i].commands, DeclaredUnder(rest[1..], t[i].key))
                    == RemoveEach(t[i].commands, DeclaredUnder(rest, t[i].key))
  {
    hide Discarded, RemoveEach, Outlasts, Vanishes, Declares, DeclaredUnder, Keyed;
    var d := Discarded(t, rest[0].key, rest[0].commands);
    var cut := DiscardCases(t, rest[0].key, rest[0].commands);
    OthersLater(t, n, rest, cut);
    if cut < n {
      DiscardOutlasts(t[cut], rest);
    } else if cut < |t| {
      DiscardVanishes(t[cut], rest);
    }
    forall j | n <= j < |d| ensures Vanishes(d[j], rest[1..]) {
      if |d| < |t| {
        assert d[j] == t[if j < cut then j else j + 1];
      }
    }
  }

  lemma {:induction false} UntrackShape(t: seq<CommandGroup>, n: nat, rest: Declarations)
    requires Shaped(t, n, rest)
    ensures |Untrack(t, rest)| == n
    ensures forall i :: 0 <= i < n ==>
              Untrack(t, rest)[i] == CommandGroup(t[i].key, RemoveEach(t[i].commands, DeclaredUnder(rest, t[i].key)))
    decreases |rest|
  {
    if |rest| == 0 {
      assert n < |t| ==> Vanishes(t[n], rest);
    } else {
      hide Discarded, RemoveEach;
      DiscardShape(t, n, rest);
      UntrackShape(Discarded(t, rest[0].key, rest[0].commands), n, rest[1..]);
    }
  }

  ghost predicate FullUnder(groups: seq<CommandGroup>, key: GroupKey) {
    Keyed(groups) && forall g :: g in groups && g.key == key ==> g.commands != []
  }

  lemma DiscardFills(groups: seq<CommandGroup>, key: GroupKey, commands: seq<Command>, k: GroupKey)
    requires Keyed(groups) && (k == key || FullUnder(groups, k))
    ensures FullUnder(Discarded(groups, key, commands), k)
  {
    hide Discarded, RemoveEach, Keyed;
    var d := Discarded(groups, key, commands);
    var cut := DiscardCases(groups, key, commands);
    forall i | 0 <= i < |d| && d[i].key == k ensures d[i].commands != [] {
      if |d| < |groups| {
        assert d[i] == groups[if i < cut then i else i + 1];
      }
    }
  }

  /** No group of a declared key is left empty. */
  lemma {:induction false} UntrackFills(groups: seq<CommandGroup>, entries: Declarations, k: GroupKey)
    requires Keyed(groups) && (Declares(entries, k) || FullUnder(groups, k))
    ensures FullUnder(Untrack(groups, entries), k)
    decreases |entries|
  {
    if |entries| > 0 {
      var d := Discarded(groups, entries[0].key, entries[0].commands);
      DiscardListed(groups, entries[0].key, entries[0].commands, k);
      if entries[0].key == k || FullUnder(groups, k) {
        DiscardFills(groups, entries[0].key, entries[0].commands, k);
      }
      hide Discarded, FullUnder;
      UntrackFills(d, entries[1..], k);
    }
  }

  // ---------------------------------------------------------------- the theorems

  /** The list under a key, once what is declared for it was added and removed again. */
  function Restored(g: CommandGroup, entries: Declarations): seq<Command> {
    var declared := DeclaredUnder(entries, g.key);
    RemoveEach(g.commands + declared, declared)
  }

  /** Removing a handler restores the whole list it was added to exactly when no group it declares for was
      empty and each of them comes back in order. */
  lemma UndoneExactly(groups: seq<CommandGroup>, entries: Declarations)
    requires Keyed(groups)
    ensures Untrack(Track(groups, entries), entries) == groups <==>
              forall g :: g in groups && Declares(entries, g.key) ==>
                g.commands != [] && Restored(g, entries) == g.commands
  {
    hide RemoveEach, Track, Untrack;
    var t := Track(groups, entries);
    TrackShape(groups, entries);
    if g :| g in groups && Declares(entries, g.key) && g.commands == [] {
      UntrackFills(t, entries, g.key);
    } else {
      forall j | |groups| <= j < |t| ensures Vanishes(t[j], entries) {
        TrackedNew(groups, entries, j);
      }
      forall i | 0 <= i < |groups| ensures Outlasts(t[i], entries) {
        assert groups[i] in groups;
      }
      UntrackShape(t, |groups|, entries);
      var r := Untrack(t, entries);
      forall i | 0 <= i < |groups|
        ensures r[i] == CommandGroup(groups[i].key, Restored(groups[i], entries))
        ensures !Declares(entries, groups[i].key) ==> r[i] == groups[i]
      {
        if !Declares(entries, groups[i].key) {
          UndeclaredKey(entries, groups[i].key);
          assert groups[i].commands + [] == groups[i].commands;
          RemoveNone(groups[i].commands);
        }
      }
      if r == groups {
        forall g | g in groups && Declares(entries, g.key)
          ensures g.commands != [] && Restored(g, entries) == g.commands
        {
          var i :| 0 <= i < |groups| && groups[i] == g;
        }
      } else {
        var i :| 0 <= i < |groups| && r[i] != groups[i];
        assert groups[i] in groups;
      }
    }
  }

  /** It does when no declared command was listed under its key before. */
  lemma UndoneWhenUnlisted(groups: seq<CommandGroup>, entries: Declarations)
    requires Keyed(groups)
    requires forall g :: g in groups && Declares(entries, g.key) ==>
               g.commands != [] && forall c :: c in DeclaredUnder(entries, g.key) ==> c !in g.commands
    ensures Untrack(Track(groups, entries), entries) == groups
  {
    forall g | g in groups && Declares(entries, g.key) ensures Restored(g, entries) == g.commands {
      var declared := DeclaredUnder(entries, g.key);
      OrderKept(g.commands, declared, |declared|);
      assert declared[..|declared|] == declared && g.commands + declared[|declared|..] == g.commands;
    }
    UndoneExactly(groups, entries);
  }

  /** It does not when a listed declared command has an undeclared one behind it. */
  lemma NotUndone(groups: seq<CommandGroup>, entries: Declarations, g: CommandGroup, i: nat, j: nat)
    requires Keyed(groups) && g in groups && Declares(entries, g.key) && i < j < |g.commands|
    requires g.commands[i] in DeclaredUnder(entries, g.key) && g.commands[j] !in DeclaredUnder(entries, g.key)
    ensures Untrack(Track(groups, entries), entries) != groups
  {
    OrderLost(g.commands, DeclaredUnder(entries, g.key), i, j);
    UndoneExactly(groups, entries);
  }

  lemma SingleDeclared(g: CommandGroup, c: Command)
    ensures Restored(g, [CommandGroup(g.key, [c])]) == RemoveFirst(g.commands + [c], c)
  {
    var entries := [CommandGroup(g.key, [c])];
    assert entries[1..] == [] && [c] + [] == [c];
    assert DeclaredUnder(entries, g.key) == [c];
    RemoveEachGrows(g.commands + [c], [c], 0);
    assert [c][..1] == [c] && [c][..0] == [];
    RemoveNone(g.commands + [c]);
  }

  /** For one declared command: exactly when nothing else follows its first occurrence. */
  lemma OneUndoneExactly(groups: seq<CommandGroup>, key: GroupKey, c: Command)
    requires Keyed(groups)
    ensures var entries := [CommandGroup(key, [c])];
            Untrack(Track(groups, entries), entries) == groups <==>
              forall g :: g in groups && g.key == key ==>
                g.commands != [] && forall j :: 0 <= j < |g.commands| && c in g.commands[..j] ==> g.commands[j] == c
  {
    var entries := [CommandGroup(key, [c])];
    assert entries[1..] == [];
    UndoneExactly(groups, entries);
    forall g: CommandGroup
      ensures Declares(entries, g.key) <==> g.key == key
      ensures g.key == key ==> Restored(g, entries) == RemoveFirst(g.commands + [c], c)
    {
      SingleDeclared(g, c);
    }
    forall g | g in groups && g.key == key
      ensures RemoveFirst(g.commands + [c], c) == g.commands <==>
                forall j :: 0 <= j < |g.commands| && c in g.commands[..j] ==> g.commands[j] == c
    {
      RemoveAppended(g.commands, c);
    }
  }

  /** Where no list repeats itself: exactly when the listed declared commands stand at the end already, in
      the order they are declared in. */
  lemma DistinctUndoneExactly(groups: seq<CommandGroup>, entries: Declarations)
    requires Keyed(groups)
    requires forall g :: g in groups && Declares(entries, g.key) ==>
               Distinct(g.commands) && Distinct(DeclaredUnder(entries, g.key))
    ensures Untrack(Track(groups, entries), entries) == groups <==>
              forall g :: g in groups && Declares(entries, g.key) ==>
                var declared := DeclaredUnder(entries, g.key);
                g.commands != [] && g.commands == Others(g.commands, declared) + Kept(declared, g.commands)
  {
    UndoneExactly(groups, entries);
    forall g | g in groups && Declares(entries, g.key)
      ensures var declared := DeclaredUnder(entries, g.key);
              Restored(g, entries) == Others(g.commands, declared) + Kept(declared, g.commands)
    {
      var declared := DeclaredUnder(entries, g.key);
      DistinctOrder(g.commands, declared, |declared|);
      assert declared[..|declared|] == declared;
      assert Kept(declared, g.commands) + declared[|declared|..] == Kept(declared, g.commands);
    }
  }
}
