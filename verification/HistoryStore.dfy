/** pyroflow/update_history_store/memory_update_history_store.py: a heap per key, trimmed by age on
    access and by length on update, seen from outside as a view of everything ever logged. */
module HistoryStores {
  import opened Heaps

  /** What a store is configured with: record lifetime and records kept per key. */
  datatype Bounds = Bounds(ttl: real, maxHistoryLen: nat)

  /** `_is_expired` */
  predicate Expired(b: Bounds, r: Record, now: real) {
    now >= r.createdAt + b.ttl
  }

  function DropExpired(b: Bounds, s: seq<Record>, now: real): seq<Record> {
    if |s| > 0 && Expired(b, s[0], now) then DropExpired(b, s[1..], now) else s
  }

  function Newest(s: seq<Record>, n: nat): seq<Record> {
    if |s| <= n then s else s[|s| - n..]
  }

  /** The newest `max_history_len` of the unexpired records of a sorted list. */
  function Trim(b: Bounds, s: seq<Record>, now: real): seq<Record> {
    Newest(DropExpired(b, s, now), b.maxHistoryLen)
  }

  /** What the store shows of a log: sorted, unexpired, the newest few. */
  function Visible(b: Bounds, log: seq<Record>, now: real): seq<Record> {
    Trim(b, Sort(log), now)
  }

  // ---------------------------------------------------------------- dropping and trimming

  ghost predicate AllExpired(b: Bounds, s: seq<Record>, now: real) {
    forall x :: x in s ==> Expired(b, x, now)
  }

  /** Dropping a prefix of a sorted list keeps exactly the unexpired records. */
  lemma {:induction false} DropExpiredIsFilter(b: Bounds, s: seq<Record>, now: real) returns (gone: seq<Record>)
    requires Sorted(s)
    ensures s == gone + DropExpired(b, s, now) && AllExpired(b, gone, now)
    ensures forall x :: x in DropExpired(b, s, now) ==> !Expired(b, x, now)
  {
    gone := [];
    if |s| > 0 && Expired(b, s[0], now) {
      var rest := DropExpiredIsFilter(b, s[1..], now);
      gone := [s[0]] + rest;
    } else {
      forall x | x in s ensures !Expired(b, x, now) {
        var i :| 0 <= i < |s| && s[i] == x;
        assert i == 0 || Leq(s[0], x);
      }
    }
  }

  /** What trimming takes away is a prefix: all expired, unless enough is left without it. */
  lemma TrimmedPrefix(b: Bounds, s: seq<Record>, now: real) returns (front: seq<Record>)
    requires Sorted(s)
    ensures s == front + Trim(b, s, now)
    ensures |Trim(b, s, now)| >= b.maxHistoryLen || AllExpired(b, front, now)
  {
    var expired := DropExpiredIsFilter(b, s, now);
    var live := DropExpired(b, s, now);
    if |live| <= b.maxHistoryLen {
      front := expired;
    } else {
      front := expired + live[..|live| - b.maxHistoryLen];
    }
  }

  lemma TrimOne(b: Bounds, x: Record, rest: seq<Record>, now: real)
    requires Sorted([x] + rest)
    requires |rest| >= b.maxHistoryLen || Expired(b, x, now)
    ensures Trim(b, [x] + rest, now) == Trim(b, rest, now)
  {
    var s := [x] + rest;
    assert s[0] == x && s[1..] == rest;
    if !Expired(b, x, now) && |rest| > 0 {
      assert Leq(s[0], s[1]);
    }
  }

  /** Old records in front make no difference once there are enough behind, or they are all expired. */
  lemma {:induction false} TrimPrefix(b: Bounds, front: seq<Record>, back: seq<Record>, now: real)
    requires Sorted(front + back)
    requires |back| >= b.maxHistoryLen || AllExpired(b, front, now)
    ensures Trim(b, front + back, now) == Trim(b, back, now)
  {
    if |front| == 0 {
      assert front + back == back;
    } else {
      var rest := front[1..] + back;
      assert front + back == [front[0]] + rest;
      assert Sorted(rest) by { SuffixSorted(front + back, 1); }
      TrimOne(b, front[0], rest, now);
      TrimPrefix(b, front[1..], back, now);
    }
  }

  lemma SuffixSorted(s: seq<Record>, n: nat)
    requires Sorted(s) && n <= |s|
    ensures Sorted(s[n..]) && Sorted(s[..n])
  {
  }

  lemma TrimSorted(b: Bounds, s: seq<Record>, now: real)
    requires Sorted(s)
    ensures Sorted(Trim(b, s, now)) && |Trim(b, s, now)| <= b.maxHistoryLen
  {
    var front := TrimmedPrefix(b, s, now);
    SuffixSorted(s, |front|);
    assert s[|front|..] == Trim(b, s, now);
  }

  /** Cleaning up early changes nothing that is seen later. */
  lemma TrimAgain(b: Bounds, s: seq<Record>, past: real, now: real)
    requires Sorted(s) && past <= now
    ensures Trim(b, Trim(b, s, past), now) == Trim(b, s, now)
  {
    var front := TrimmedPrefix(b, s, past);
    TrimPrefix(b, front, Trim(b, s, past), now);
  }

  /** `shown` and `hidden` make up the log. Shown are, by time of creation and then of construction, records
      that are still alive at `now`, no more than the bound, none of them older than one hidden; and hidden
      are only records whose time is up, unless the bound is reached. */
  ghost predicate NewestAlive(b: Bounds, log: seq<Record>, shown: seq<Record>, hidden: seq<Record>, now: real) {
    && multiset(log) == multiset(hidden) + multiset(shown) && |shown| <= b.maxHistoryLen
    && (forall i, j :: 0 <= i < j < |shown| ==>
          shown[i].createdAt < shown[j].createdAt
          || (shown[i].createdAt == shown[j].createdAt && shown[i].sequence <= shown[j].sequence))
    && (forall x :: x in shown ==> now < x.createdAt + b.ttl)
    && (forall x, y :: x in hidden && y in shown ==>
          x.createdAt < y.createdAt || (x.createdAt == y.createdAt && x.sequence <= y.sequence))
    && (|shown| == b.maxHistoryLen || forall x :: x in hidden ==> now >= x.createdAt + b.ttl)
  }

  /** What the store shows of a log is exactly that, and nothing else is. */
  lemma VisibleExactly(b: Bounds, log: seq<Record>, shown: seq<Record>, now: real)
    ensures (exists hidden :: NewestAlive(b, log, shown, hidden, now)) <==> shown == Visible(b, log, now)
  {
    hide NewestAlive, Visible;
    var rest := VisibleMeaning(b, log, now);
    forall hidden | NewestAlive(b, log, shown, hidden, now) ensures shown == Visible(b, log, now) {
      ShownOnly(b, log, shown, hidden, now);
    }
  }

  lemma ShownOnly(b: Bounds, log: seq<Record>, shown: seq<Record>, hidden: seq<Record>, now: real)
    requires NewestAlive(b, log, shown, hidden, now)
    ensures shown == Visible(b, log, now)
  {
    hide Sort, Trim;
    var front := Sort(hidden);
    SortSorted(hidden);
    forall x | x in front ensures x in hidden {
      assert x in multiset(front);
    }
    forall i, j | 0 <= i < j < |front + shown| ensures Leq((front + shown)[i], (front + shown)[j]) {
      if i < |front| <= j {
        assert front[i] in hidden && shown[j - |front|] in shown;
      }
    }
    SortSorted(log);
    SortedUnique(Sort(log), front + shown);
    if |shown| < b.maxHistoryLen {
      assert AllExpired(b, front, now);
    }
    TrimPrefix(b, front, shown, now);
    NothingTrimmed(b, shown, now);
  }

  lemma NothingTrimmed(b: Bounds, s: seq<Record>, now: real)
    requires |s| <= b.maxHistoryLen && forall x :: x in s ==> now < x.createdAt + b.ttl
    ensures Trim(b, s, now) == s
  {
  }

  /** What is visible: the newest records that are alive, as many as the bound allows. `hidden` is the rest. */
  lemma VisibleMeaning(b: Bounds, log: seq<Record>, now: real) returns (hidden: seq<Record>)
    ensures NewestAlive(b, log, Visible(b, log, now), hidden, now)
  {
    hide Visible;
    hidden := VisibleInOrder(b, log, now);
  }

  lemma VisibleInOrder(b: Bounds, log: seq<Record>, now: real) returns (hidden: seq<Record>)
    ensures var shown := Visible(b, log, now);
            && Sorted(shown) && |shown| <= b.maxHistoryLen
            && multiset(log) == multiset(hidden) + multiset(shown)
            && (forall x :: x in shown ==> !Expired(b, x, now))
            && (forall x, y :: x in hidden && y in shown ==> Leq(x, y))
            && (|shown| == b.maxHistoryLen || AllExpired(b, hidden, now))
  {
    hide Sort, Expired, Leq, DropExpired;
    var s := Sort(log);
    SortSorted(log);
    hidden := TrimmedPrefix(b, s, now);
    TrimSorted(b, s, now);
    var gone := DropExpiredIsFilter(b, s, now);
    var shown := Visible(b, log, now);
    assert forall x :: x in shown ==> x in DropExpired(b, s, now);
    forall x, y | x in hidden && y in shown ensures Leq(x, y) {
      var i :| 0 <= i < |hidden| && hidden[i] == x;
      var j :| 0 <= j < |shown| && shown[j] == y;
      assert s[i] == x && s[|hidden| + j] == y;
    }
  }

  // ---------------------------------------------------------------- adding records

  lemma {:induction false} InsertSplit(front: seq<Record>, back: seq<Record>, r: Record)
    requires Sorted(front + back)
    ensures Insert(front + back, r) ==
            if |front| > 0 && Less(r, front[|front| - 1]) then Insert(front, r) + back else front + Insert(back, r)
    decreases |back|
  {
    if |back| == 0 {
      assert front + back == front && Insert(back, r) == [r];
    } else {
      var shorter, last := back[..|back| - 1], back[|back| - 1];
      assert (front + back)[..|front + back| - 1] == front + shorter;
      SuffixSorted(front + back, |front + back| - 1);
      InsertSplit(front, shorter, r);
      if |front| > 0 && Less(r, front[|front| - 1]) {
        assert Leq((front + back)[|front| - 1], (front + back)[|front + back| - 1]);
        assert Insert(front, r) + shorter + [last] == Insert(front, r) + back;
      } else if Less(r, last) {
        assert front + Insert(shorter, r) + [last] == front + (Insert(shorter, r) + [last]);
      } else {
        assert (front + back) + [r] == front + (back + [r]);
      }
    }
  }

  lemma {:induction false} InsertSmaller(back: seq<Record>, r: Record)
    requires Sorted(back) && (|back| == 0 || Less(r, back[0]))
    ensures Insert(back, r) == [r] + back
  {
    if |back| > 0 {
      var front, last := back[..|back| - 1], back[|back| - 1];
      assert |front| > 0 ==> Leq(back[0], last);
      InsertSmaller(front, r);
      assert back == front + [last];
      assert [r] + front + [last] == [r] + back;
    }
  }

  /** A record that arrives where an earlier clean-up already cut gives the same view as one that
      arrives in the full log. */
  lemma TrimInsert(b: Bounds, s: seq<Record>, r: Record, past: real, now: real)
    requires Sorted(s) && past <= now
    ensures Trim(b, Insert(Trim(b, s, past), r), now) == Trim(b, Insert(s, r), now)
  {
    var front := TrimmedPrefix(b, s, past);
    var back := Trim(b, s, past);
    TrimSorted(b, s, past);
    InsertSplit(front, back, r);
    InsertSorted(s, r);
    InsertSorted(back, r);
    if |front| > 0 && Less(r, front[|front| - 1]) {
      InsertEarlier(b, front, back, r, past, now);
    } else {
      TrimPrefix(b, front, Insert(back, r), now);
    }
  }

  lemma InsertEarlier(b: Bounds, front: seq<Record>, back: seq<Record>, r: Record, past: real, now: real)
    requires Sorted(front + back) && Sorted(back) && past <= now && |front| > 0 && Less(r, front[|front| - 1])
    requires |back| >= b.maxHistoryLen || AllExpired(b, front, past)
    requires Sorted(Insert(front, r) + back) && Sorted(Insert(back, r))
    ensures Trim(b, Insert(back, r), now) == Trim(b, Insert(front, r) + back, now)
  {
    var last := front[|front| - 1];
    assert last in front;
    if |back| > 0 {
      assert Leq((front + back)[|front| - 1], (front + back)[|front|]);
    }
    InsertSmaller(back, r);
    SuffixSorted(front + back, |front|);
    assert (front + back)[..|front|] == front;
    InsertSorted(front, r);
    if |back| < b.maxHistoryLen {
      forall x | x in Insert(front, r) ensures Expired(b, x, now) {
        assert x in multiset(Insert(front, r));
        assert x in front || x == r;
      }
    }
    TrimPrefix(b, Insert(front, r), back, now);
    TrimOne(b, r, back, now);
  }

  lemma SortAppend(s: seq<Record>, t: seq<Record>, r: Record)
    ensures Sort(s + (t + [r])) == Insert(Sort(s + t), r)
  {
    hide Sort;
    SortLast(s + t, r);
    assert s + (t + [r]) == s + t + [r];
  }

  lemma SortLast(s: seq<Record>, r: Record)
    ensures Sort(s + [r]) == Insert(Sort(s), r)
  {
    hide Insert;
    var longer := s + [r];
    assert longer[..|longer| - 1] == s && longer[|longer| - 1] == r;
  }

  /** Adding records to what an earlier clean-up left shows the same as adding them to the full log. */
  lemma {:induction false} TrimAppend(b: Bounds, kept: seq<Record>, log: seq<Record>, records: seq<Record>,
                                      past: real, now: real)
    requires past <= now && Sort(kept) == Trim(b, Sort(log), past)
    ensures Trim(b, Sort(kept + records), now) == Trim(b, Sort(log + records), now)
    decreases |records|
  {
    hide Sort, Trim, Insert, Sorted;
    SortSorted(log);
    if |records| == 0 {
      assert kept + records == kept && log + records == log;
      TrimAgain(b, Sort(log), past, now);
    } else {
      var earlier, r := records[..|records| - 1], records[|records| - 1];
      TrimAppend(b, kept, log, earlier, past, now);
      assert records == earlier + [r];
      SortAppend(kept, earlier, r);
      SortAppend(log, earlier, r);
      SortSorted(kept + earlier);
      SortSorted(log + earlier);
      TrimInsert(b, Sort(kept + earlier), r, now, now);
      TrimInsert(b, Sort(log + earlier), r, now, now);
    }
  }

  // ---------------------------------------------------------------- batching

  /** A heap's content, sorted, after one update with these records. */
  function AfterUpdate(b: Bounds, kept: seq<Record>, records: seq<Record>, now: real): seq<Record> {
    Trim(b, Sort(kept + records), now)
  }

  /** The same records, one update each, at the same instant. */
  function AfterSingles(b: Bounds, kept: seq<Record>, records: seq<Record>, now: real): seq<Record>
    decreases |records|
  {
    if |records| == 0 then Trim(b, Sort(kept), now)
    else AfterUpdate(b, AfterSingles(b, kept, records[..|records| - 1], now), [records[|records| - 1]], now)
  }

  lemma {:induction false} SortOfSorted(s: seq<Record>)
    requires Sorted(s)
    ensures Sort(s) == s
  {
    SortSorted(s);
    SortedUnique(Sort(s), s);
  }

  /** An update with many records leaves what as many single updates leave, in whatever order. */
  lemma {:induction false} BatchingUnobservable(b: Bounds, kept: seq<Record>, records: seq<Record>,
                                                singles: seq<Record>, now: real)
    requires multiset(records) == multiset(singles)
    ensures AfterUpdate(b, kept, records, now) == AfterSingles(b, kept, singles, now)
    decreases |singles|
  {
    hide Sort, Trim, Insert, Sorted;
    SortSame(kept + records, kept + singles);
    if |singles| == 0 {
      assert kept + singles == kept;
    } else {
      var earlier, r := singles[..|singles| - 1], singles[|singles| - 1];
      BatchingUnobservable(b, kept, earlier, earlier, now);
      var before := AfterSingles(b, kept, earlier, now);
      SortSorted(kept + earlier);
      TrimSorted(b, Sort(kept + earlier), now);
      SortOfSorted(before);
      assert singles == earlier + [r];
      SortAppend(kept, earlier, r);
      SortAppend(before, [], r);
      assert before + [] == before && [] + [r] == [r];
      TrimInsert(b, Sort(kept + earlier), r, now, now);
    }
  }

  /** The view of a log does not depend on the order records were added in. */
  lemma OrderUnobservable(b: Bounds, log: seq<Record>, other: seq<Record>, now: real)
    requires multiset(log) == multiset(other)
    ensures Visible(b, log, now) == Visible(b, other, now)
  {
    SortSame(log, other);
  }

  // ---------------------------------------------------------------- the loops over the heap

  /** The root of a heap is the first of its records in order. */
  lemma PopIsFirst(heap: seq<Record>, item: Record, rest: seq<Record>)
    requires multiset(heap) == multiset(rest) + multiset{item} && forall r :: r in heap ==> Leq(item, r)
    ensures Sort(heap) == [item] + Sort(rest)
  {
    hide Sort, Leq, Sorted;
    SortSorted(heap);
    SortSorted(rest);
    forall r | r in Sort(rest) ensures Leq(item, r) {
      assert r in multiset(Sort(rest));
      assert r in multiset(heap);
    }
    FirstSorted(item, Sort(rest));
    SortedUnique(Sort(heap), [item] + Sort(rest));
  }

  lemma FirstSorted(item: Record, s: seq<Record>)
    requires Sorted(s) && forall r :: r in s ==> Leq(item, r)
    ensures Sorted([item] + s) && multiset([item] + s) == multiset(s) + multiset{item}
  {
    hide Leq;
  }

  lemma RootIsFirst(heap: seq<Record>)
    requires Heap(heap) && |heap| > 0
    ensures |Sort(heap)| > 0 && Sort(heap)[0] == heap[0]
  {
    forall r | r in heap ensures Leq(heap[0], r) {
      var i :| 0 <= i < |heap| && heap[i] == r;
      HeapMinimum(heap, i);
    }
    assert heap == [heap[0]] + heap[1..];
    PopIsFirst(heap, heap[0], heap[1..]);
  }

  /** A clean-up removes each record whose time is up, as often as it is there, and no other. */
  lemma AliveRemain(b: Bounds, heap: seq<Record>, h: seq<Record>, now: real, x: Record)
    requires Sort(h) == DropExpired(b, Sort(heap), now)
    ensures multiset(h)[x] == if now < x.createdAt + b.ttl then multiset(heap)[x] else 0
  {
    hide Sort;
    SortSorted(h);
    SortSorted(heap);
    var gone := DropExpiredIsFilter(b, Sort(heap), now);
    assert multiset(heap) == multiset(gone) + multiset(h);
    assert x in multiset(gone) ==> x in gone;
    assert x in multiset(h) ==> x in Sort(h) by {
      assert x in multiset(Sort(h)) ==> x in Sort(h);
    }
  }

  /** `_clean_up` */
  method CleanUp(b: Bounds, heap: seq<Record>, now: real) returns (h: seq<Record>)
    requires Heap(heap)
    ensures Heap(h) && Sort(h) == DropExpired(b, Sort(heap), now)
    ensures |h| <= |heap|
  {
    hide Heap, Sort;
    h := heap;
    while |h| > 0 && Expired(b, h[0], now)
      invariant Heap(h) && |h| <= |heap|
      invariant DropExpired(b, Sort(h), now) == DropExpired(b, Sort(heap), now)
      decreases |h|
    {
      ghost var before := h;
      var item;
      item, h := HeapPop(h);
      PopIsFirst(before, item, h);
      assert |multiset(before)| == |multiset(h)| + 1;
      assert ([item] + Sort(h))[1..] == Sort(h);
    }
    SortSorted(h);
    if |h| > 0 {
      RootIsFirst(h);
    }
  }

  /** The length trim at the end of `_update`. */
  method TrimLength(heap: seq<Record>, maxHistoryLen: nat) returns (h: seq<Record>)
    requires Heap(heap)
    ensures Heap(h) && Sort(h) == Newest(Sort(heap), maxHistoryLen)
  {
    hide Heap, Sort;
    h := heap;
    SortSorted(h);
    while |h| > maxHistoryLen
      invariant Heap(h) && |Sort(h)| == |h|
      invariant Newest(Sort(h), maxHistoryLen) == Newest(Sort(heap), maxHistoryLen)
      decreases |h|
    {
      ghost var before := h;
      var item;
      item, h := HeapPop(h);
      PopIsFirst(before, item, h);
      SortSorted(h);
      assert |multiset(before)| == |multiset(h)| + 1;
    }
  }

  /** The pushes at the start of `_update`. */
  method PushAll(heap: seq<Record>, records: seq<Record>) returns (h: seq<Record>)
    requires Heap(heap)
    ensures Heap(h) && multiset(h) == multiset(heap) + multiset(records)
  {
    hide Heap;
    h := heap;
    for i := 0 to |records|
      invariant Heap(h) && multiset(h) == multiset(heap) + multiset(records[..i])
    {
      assert records[..i + 1] == records[..i] + [records[i]];
      h := HeapPush(h, records[i]);
    }
    assert records[..|records|] == records;
  }

  // ---------------------------------------------------------------- the store

  /** A history key: any tuple of integers. */
  datatype HistoryKey = HistoryKey(parts: seq<int>)

  class MemoryUpdateHistoryStore {
    const bounds: Bounds
    var histories: map<HistoryKey, seq<Record>>

    // Everything logged under each key since it was last popped or deleted, when each key was last
    // touched, and the latest instant seen.
    ghost var logs: map<HistoryKey, seq<Record>>
    ghost var touched: map<HistoryKey, real>
    ghost var clock: real

    ghost function Log(key: HistoryKey): seq<Record>
      reads this
    {
      if key in logs then logs[key] else []
    }

    /** `histories.get(key, [])` */
    function Heap(key: HistoryKey): seq<Record>
      reads this
    {
      if key in histories then histories[key] else []
    }

    /** A key's heap holds what its log showed when the key was last touched, and is not kept empty. */
    ghost predicate KeyValid(key: HistoryKey)
      reads this
    {
      if key in touched then
        touched[key] <= clock && Cleaned(key, Heap(key), touched[key])
        && (key in histories ==> |histories[key]| > 0)
      else key !in histories && key !in logs
    }

    /** `heap` is what the log of `key` shows at `now`. */
    ghost predicate Cleaned(key: HistoryKey, heap: seq<Record>, now: real)
      reads this
    {
      Heaps.Heap(heap) && Sort(heap) == Visible(bounds, Log(key), now) && |heap| <= bounds.maxHistoryLen
    }

    ghost predicate Valid()
      reads this
    {
      forall key :: KeyValid(key)
    }

    constructor (ttl: real, maxHistoryLen: nat)
      ensures Valid() && histories == map[] && forall key :: Log(key) == []
      ensures bounds == Bounds(ttl, maxHistoryLen)
    {
      bounds := Bounds(ttl, maxHistoryLen);
      histories, logs, touched := map[], map[], map[];
      clock := 0.0;
    }

    /** Store a cleaned heap back, or drop the key when nothing is left. */
    method Put(key: HistoryKey, heap: seq<Record>, now: real)
      requires Cleaned(key, heap, now) && clock <= now
      requires forall k :: k != key ==> KeyValid(k)
      modifies this`histories, this`touched, this`clock
      ensures Valid() && clock == now
    {
      hide Visible, Sort, Heaps.Heap;
      if heap == [] {
        histories := histories - {key};
      } else {
        histories := histories[key := heap];
      }
      touched := touched[key := now];
      clock := now;
      assert Heap(key) == heap;
      assert KeyValid(key);
      forall k | k != key ensures KeyValid(k) {
        assert old(KeyValid(k)) && Heap(k) == old(Heap(k));
      }
    }

    /** A visible list is no longer than the bound, and an update of a kept heap shows the longer log. */
    lemma UpdateShows(key: HistoryKey, records: seq<Record>, now: real)
      requires KeyValid(key) && clock <= now
      ensures Trim(bounds, Sort(Heap(key) + records), now) == Visible(bounds, Log(key) + records, now)
    {
      if key in touched {
        TrimAppend(bounds, Heap(key), Log(key), records, touched[key], now);
      }
    }

    /** `_update` at the instant `now`: everything logged is remembered, and nothing else changes. */
    method Update(key: HistoryKey, records: seq<Record>, now: real)
      requires Valid() && clock <= now
      modifies this
      ensures Valid() && clock == now
      ensures logs == old(logs)[key := old(Log(key)) + records]
    {
      assert KeyValid(key);
      UpdateShows(key, records, now);
      ghost var before := Heap(key);
      hide Sort, Heaps.Heap, Trim, Visible;
      var heap := PushAll(Heap(key), records);
      SortSame(heap, before + records);
      heap := CleanUp(bounds, heap, now);
      heap := TrimLength(heap, bounds.maxHistoryLen);
      logs := logs[key := Log(key) + records];
      CleanedByTrim(key, heap, now);
      forall k | k != key ensures KeyValid(k) {
        assert old(KeyValid(k));
      }
      Put(key, heap, now);
    }

    lemma CleanedByTrim(key: HistoryKey, heap: seq<Record>, now: real)
      requires Heaps.Heap(heap) && Sort(heap) == Visible(bounds, Log(key), now)
      ensures Cleaned(key, heap, now)
    {
      SortSorted(heap);
      SortSorted(Log(key));
      TrimSorted(bounds, Sort(Log(key)), now);
    }

    /** A kept heap cleaned up at `now` holds what the log shows at `now`. */
    lemma CleanUpShows(key: HistoryKey, heap: seq<Record>, now: real)
      requires KeyValid(key) && clock <= now
      requires Heaps.Heap(heap) && Sort(heap) == DropExpired(bounds, Sort(Heap(key)), now)
      ensures Cleaned(key, heap, now)
    {
      UpdateShows(key, [], now);
      assert Heap(key) + [] == Heap(key) && Log(key) + [] == Log(key);
      SortSorted(heap);
      SortSorted(Heap(key));
      var gone := DropExpiredIsFilter(bounds, Sort(Heap(key)), now);
      CleanedByTrim(key, heap, now);
    }

    /** `_get` at the instant `now`: what the log shows, and nothing observable changes. */
    method Get(key: HistoryKey, now: real) returns (records: seq<Record>)
      requires Valid() && clock <= now
      modifies this
      ensures Valid() && clock == now && logs == old(logs)
      ensures records == Visible(bounds, Log(key), now)
      ensures exists hidden :: NewestAlive(bounds, Log(key), records, hidden, now)
    {
      assert KeyValid(key);
      hide Sort, Heaps.Heap, Visible, NewestAlive;
      var heap := CleanUp(bounds, Heap(key), now);
      CleanUpShows(key, heap, now);
      records := Sort(heap);
      VisibleExactly(bounds, Log(key), records, now);
      Put(key, heap, now);
    }

    /** `_pop` at the instant `now`: what the log shows, and the key starts over. */
    method Pop(key: HistoryKey, now: real) returns (records: seq<Record>)
      requires Valid() && clock <= now
      modifies this
      ensures Valid() && clock == now && logs == old(logs)[key := []]
      ensures records == Visible(bounds, old(Log(key)), now)
      ensures exists hidden :: NewestAlive(bounds, old(Log(key)), records, hidden, now)
    {
      assert KeyValid(key);
      hide Sort, Heaps.Heap, Visible, NewestAlive;
      var heap := CleanUp(bounds, Heap(key), now);
      CleanUpShows(key, heap, now);
      records := Sort(heap);
      VisibleExactly(bounds, Log(key), records, now);
      Delete(key, now);
    }

    /** `_delete`: the key starts over. */
    method Delete(key: HistoryKey, now: real)
      requires Valid() && clock <= now
      modifies this
      ensures Valid() && clock == now && logs == old(logs)[key := []]
    {
      histories := histories - {key};
      logs := logs[key := []];
      touched := touched[key := now];
      clock := now;
      forall k ensures KeyValid(k) {
        if k != key {
          assert old(KeyValid(k));
        }
      }
    }
  }
}
