/**
 * Which backups a point-in-time restore replays: the latest full at or before the
 * target, then the log backups that carry it forward, in LSN order.
 */
module Chain {
  import opened Wrappers
  import opened Text
  import Bytes

  const U128_LIMIT: nat := 0x1_0000_0000_0000_0000_0000_0000_0000_0000

  /** A candidate snapshot, with its metadata read the way every comparison reads it. */
  datatype ChainItem = ChainItem(snapshotTime: int, isLog: bool, time: int, first: nat, last: nat)

  /** A decimal LSN as a number, 0 when it does not parse. */
  function ParseLsn(s: string): nat {
    match ParseUnsigned(Trim(s), U128_LIMIT)
    case Some(v) => v
    case None => 0
  }

  /** A snapshot and its metadata blob. */
  datatype Stored = Stored(snapshotTime: int, kind: string, backupTime: int, firstLsn: string, lastLsn: string)

  /** The metadata as every comparison reads it. */
  function ItemOf(m: Stored): ChainItem {
    ChainItem(m.snapshotTime, EqIgnoreAsciiCase(m.kind, "log"), m.backupTime, ParseLsn(m.firstLsn), ParseLsn(m.lastLsn))
  }

  function ItemsOf(ms: seq<Stored>): (items: seq<ChainItem>)
    ensures |items| == |ms|
  {
    seq(|ms|, i requires 0 <= i < |ms| => ItemOf(ms[i]))
  }

  /** The metadata a backup writes: its kind, and its LSNs as decimal numerals. */
  function Written(i: ChainItem): Stored {
    Stored(i.snapshotTime, if i.isLog then "log" else "full", i.time, Decimal(i.first), Decimal(i.last))
  }

  /** The LSNs SQL Server writes, decimal numerals, are compared as the numbers they denote. */
  lemma ParseLsnOfDecimal(n: nat)
    requires n < U128_LIMIT
    ensures ParseLsn(Decimal(n)) == n
  {
    var s := Decimal(n);
    assert IsDigit(s[0]) && IsDigit(s[|s| - 1]);
    assert Trim(s) == s;
    ParseOfDecimal(n, U128_LIMIT);
  }

  // ---------------------------------------------------------------- the selection

  predicate FullBy(i: ChainItem, target: int) {
    !i.isLog && i.time <= target
  }

  /** The last of the latest fulls at or before the target. */
  function BestFull(items: seq<ChainItem>, target: int): Option<ChainItem> {
    if items == [] then None
    else
      var last := items[|items| - 1];
      match BestFull(items[..|items| - 1], target)
      case None => if FullBy(last, target) then Some(last) else None
      case Some(best) => if FullBy(last, target) && best.time <= last.time then Some(last) else Some(best)
  }

  /** The logs whose range ends past `base`, in input order. */
  function LogsPast(items: seq<ChainItem>, base: nat): seq<ChainItem> {
    if items == [] then []
    else
      var last := items[|items| - 1];
      LogsPast(items[..|items| - 1], base) + if last.isLog && last.last > base then [last] else []
  }

  /** Insert behind every item with a first LSN not above its own. */
  function Insert(sorted: seq<ChainItem>, x: ChainItem): seq<ChainItem> {
    if sorted == [] || sorted[|sorted| - 1].first <= x.first then sorted + [x]
    else Insert(sorted[..|sorted| - 1], x) + [sorted[|sorted| - 1]]
  }

  /** Stable sort by first LSN. */
  function SortByFirst(logs: seq<ChainItem>): seq<ChainItem> {
    if logs == [] then [] else Insert(SortByFirst(logs[..|logs| - 1]), logs[|logs| - 1])
  }

  /** Up to and including the first log that finished at or after the target. */
  function TakeTo(logs: seq<ChainItem>, target: int): (r: seq<ChainItem>)
    ensures r <= logs
  {
    if logs == [] then []
    else if logs[0].time >= target then [logs[0]]
    else [logs[0]] + TakeTo(logs[1..], target)
  }

  function SelectChain(items: seq<ChainItem>, target: int): seq<ChainItem> {
    match BestFull(items, target)
    case None => []
    case Some(full) => [full] + TakeTo(SortByFirst(LogsPast(items, full.last)), target)
  }

  predicate ChainCovers(chain: seq<ChainItem>, target: int) {
    chain != [] && chain[|chain| - 1].time >= target
  }

  /** The loop that pushes logs until one reaches the target. */
  method PushTo(full: ChainItem, logs: seq<ChainItem>, target: int) returns (chain: seq<ChainItem>)
    ensures chain == [full] + TakeTo(logs, target)
  {
    chain := [full];
    var rest := logs;
    while rest != []
      invariant [full] + TakeTo(logs, target) == chain + TakeTo(rest, target)
      decreases |rest|
    {
      var log := rest[0];
      Bytes.Associative(chain, [log], TakeTo(rest[1..], target));
      chain := chain + [log];
      if log.time >= target {
        return;
      }
      rest := rest[1..];
    }
    assert chain + TakeTo([], target) == chain;
  }

  /** Where an item is inserted: behind the last one not above it. */
  lemma {:induction false} InsertAt(sorted: seq<ChainItem>, x: ChainItem, j: nat)
    requires j <= |sorted| && (j > 0 ==> sorted[j - 1].first <= x.first)
    requires forall k :: j <= k < |sorted| ==> x.first < sorted[k].first
    ensures Insert(sorted, x) == sorted[..j] + [x] + sorted[j..]
    decreases |sorted|
  {
    if j < |sorted| {
      var front := sorted[..|sorted| - 1];
      InsertAt(front, x, j);
      assert front[..j] == sorted[..j] && front[j..] == sorted[j..|sorted| - 1];
      assert sorted[j..] == sorted[j..|sorted| - 1] + [sorted[|sorted| - 1]];
    } else {
      assert sorted[..j] == sorted && sorted[j..] == [];
    }
  }

  /** Sift item `i` down behind the sorted items before it, swapping in place. */
  method SiftDown(a: array<ChainItem>, i: nat)
    requires i < a.Length
    modifies a
    ensures a[..i + 1] == Insert(old(a[..i]), old(a[i])) && a[i + 1..] == old(a[i + 1..])
  {
    ghost var was := a[..];
    var j: nat := i;
    while j > 0 && a[j].first < a[j - 1].first
      invariant j <= i && a[j] == was[i]
      invariant forall k :: 0 <= k < j ==> a[k] == was[k]
      invariant forall k :: j < k <= i ==> a[k] == was[k - 1]
      invariant forall k :: i < k < a.Length ==> a[k] == was[k]
      invariant forall k :: j <= k < i ==> was[i].first < was[k].first
    {
      a[j - 1], a[j] := a[j], a[j - 1];
      j := j - 1;
    }
    InsertAt(was[..i], was[i], j);
    assert a[..i + 1] == was[..i][..j] + [was[i]] + was[..i][j..];
  }

  /** Sort by first LSN in place; items with equal first LSNs keep their order. */
  method SortInPlace(a: array<ChainItem>)
    modifies a
    ensures a[..] == SortByFirst(old(a[..]))
  {
    ghost var was := a[..];
    for i := 0 to a.Length
      invariant a[..i] == SortByFirst(was[..i]) && a[i..] == was[i..]
    {
      assert a[i] == was[i] && a[i..][1..] == a[i + 1..] && was[i..][1..] == was[i + 1..];
      assert was[..i + 1][..i] == was[..i];
      SiftDown(a, i);
    }
    assert was[..a.Length] == was && a[..a.Length] == a[..];
  }

  /**
   * The selection as the engine runs it: pick the full, collect the logs, sort them in place, push up to the
   * target.
   */
  method Select(items: seq<ChainItem>, target: int) returns (chain: seq<ChainItem>)
    ensures chain == SelectChain(items, target)
  {
    match BestFull(items, target)
    case None =>
      chain := [];
    case Some(full) =>
      var picked := LogsPast(items, full.last);
      var logs := new ChainItem[|picked|](i requires 0 <= i < |picked| => picked[i]);
      assert logs[..] == picked;
      SortInPlace(logs);
      chain := PushTo(full, logs[..], target);
  }

  // ---------------------------------------------------------------- what is picked

  lemma {:induction false} BestFullIsLatest(items: seq<ChainItem>, target: int)
    ensures match BestFull(items, target)
            case None => forall i :: i in items ==> !FullBy(i, target)
            case Some(full) => full in items && FullBy(full, target)
                               && forall i :: i in items && FullBy(i, target) ==> i.time <= full.time
  {
    if items != [] {
      BestFullIsLatest(items[..|items| - 1], target);
      assert items == items[..|items| - 1] + [items[|items| - 1]];
    }
  }

  lemma {:induction false} LogsPastCounts(items: seq<ChainItem>, base: nat, x: ChainItem)
    ensures multiset(LogsPast(items, base))[x] == if x.isLog && x.last > base then multiset(items)[x] else 0
  {
    if items != [] {
      LogsPastCounts(items[..|items| - 1], base, x);
      assert items == items[..|items| - 1] + [items[|items| - 1]];
    }
  }

  ghost predicate Sorted(logs: seq<ChainItem>) {
    forall i, j :: 0 <= i < j < |logs| ==> logs[i].first <= logs[j].first
  }

  lemma {:induction false} InsertKeeps(sorted: seq<ChainItem>, x: ChainItem)
    ensures multiset(Insert(sorted, x)) == multiset(sorted) + multiset{x}
  {
    if !(sorted == [] || sorted[|sorted| - 1].first <= x.first) {
      InsertKeeps(sorted[..|sorted| - 1], x);
      assert sorted == sorted[..|sorted| - 1] + [sorted[|sorted| - 1]];
    }
  }

  /** A list is sorted when its front is and nothing there exceeds its last item. */
  lemma SortedSnoc(front: seq<ChainItem>, last: ChainItem)
    requires Sorted(front) && forall y :: y in front ==> y.first <= last.first
    ensures Sorted(front + [last])
  {
  }

  lemma {:induction false} InsertSorts(sorted: seq<ChainItem>, x: ChainItem)
    requires Sorted(sorted)
    ensures Sorted(Insert(sorted, x))
  {
    if sorted == [] {
    } else if sorted[|sorted| - 1].first <= x.first {
      SortedSnoc(sorted, x);
    } else {
      var front, last := sorted[..|sorted| - 1], sorted[|sorted| - 1];
      InsertSorts(front, x);
      InsertKeeps(front, x);
      forall y | y in Insert(front, x)
        ensures y.first <= last.first
      {
        assert y in multiset(Insert(front, x));
      }
      SortedSnoc(Insert(front, x), last);
    }
  }

  lemma MultisetSnoc(front: seq<ChainItem>, last: ChainItem)
    ensures multiset(front + [last]) == multiset(front) + multiset{last}
  {
  }

  lemma {:induction false} SortSorts(logs: seq<ChainItem>)
    ensures Sorted(SortByFirst(logs)) && multiset(SortByFirst(logs)) == multiset(logs)
  {
    if logs != [] {
      var front, last := logs[..|logs| - 1], logs[|logs| - 1];
      SortSorts(front);
      InsertSorts(SortByFirst(front), last);
      InsertKeeps(SortByFirst(front), last);
      MultisetSnoc(front, last);
      assert logs == front + [last];
    }
  }

  /** The items with one first LSN, in their order. */
  function WithFirst(logs: seq<ChainItem>, key: nat): seq<ChainItem> {
    if logs == [] then []
    else WithFirst(logs[..|logs| - 1], key) + if logs[|logs| - 1].first == key then [logs[|logs| - 1]] else []
  }

  lemma WithFirstSnoc(front: seq<ChainItem>, x: ChainItem, key: nat)
    ensures WithFirst(front + [x], key) == WithFirst(front, key) + if x.first == key then [x] else []
  {
    assert (front + [x])[..|front|] == front;
  }

  lemma {:induction false} InsertIsStable(sorted: seq<ChainItem>, x: ChainItem, key: nat)
    ensures WithFirst(Insert(sorted, x), key) == WithFirst(sorted + [x], key)
  {
    if !(sorted == [] || sorted[|sorted| - 1].first <= x.first) {
      var front, last := sorted[..|sorted| - 1], sorted[|sorted| - 1];
      InsertIsStable(front, x, key);
      WithFirstSnoc(Insert(front, x), last, key);
      WithFirstSnoc(front, x, key);
      WithFirstSnoc(sorted, x, key);
    }
  }

  /** The sort is stable: items with equal first LSNs keep their order. */
  lemma {:induction false} SortIsStable(logs: seq<ChainItem>, key: nat)
    ensures WithFirst(SortByFirst(logs), key) == WithFirst(logs, key)
  {
    if logs != [] {
      var front, last := logs[..|logs| - 1], logs[|logs| - 1];
      assert SortByFirst(logs) == Insert(SortByFirst(front), last);
      InsertIsStable(SortByFirst(front), last, key);
      WithFirstSnoc(SortByFirst(front), last, key);
      SortIsStable(front, key);
    }
  }

  lemma {:induction false} WithFirstMembers(logs: seq<ChainItem>, key: nat)
    ensures WithFirst(logs, key) == [] <==> forall i :: 0 <= i < |logs| ==> logs[i].first != key
    decreases |logs|
  {
    if logs != [] {
      var front, last := logs[..|logs| - 1], logs[|logs| - 1];
      WithFirstMembers(front, key);
      assert forall i :: 0 <= i < |front| ==> front[i] == logs[i];
    }
  }

  lemma LastIsGreatest(logs: seq<ChainItem>, key: nat)
    requires logs != [] && Sorted(logs) && WithFirst(logs, key) != []
    ensures key <= logs[|logs| - 1].first
  {
    WithFirstMembers(logs, key);
    var i :| 0 <= i < |logs| && logs[i].first == key;
  }

  ghost predicate SameRuns(a: seq<ChainItem>, b: seq<ChainItem>) {
    forall key :: WithFirst(a, key) == WithFirst(b, key)
  }

  lemma EmptyRuns(b: seq<ChainItem>)
    requires SameRuns([], b)
    ensures b == []
  {
    if b != [] { WithFirstMembers(b, b[|b| - 1].first); }
  }

  lemma LastsAgree(a: seq<ChainItem>, b: seq<ChainItem>)
    requires a != [] && b != [] && Sorted(a) && Sorted(b) && SameRuns(a, b)
    ensures a[|a| - 1].first == b[|b| - 1].first
  {
    var (x, y) := (a[|a| - 1].first, b[|b| - 1].first);
    WithFirstMembers(a, x);
    WithFirstMembers(b, y);
    assert WithFirst(a, x) == WithFirst(b, x) && WithFirst(a, y) == WithFirst(b, y);
    LastIsGreatest(b, x);
    LastIsGreatest(a, y);
  }

  lemma FrontsAgree(a: seq<ChainItem>, b: seq<ChainItem>, key: nat)
    requires a != [] && b != [] && a[|a| - 1].first == b[|b| - 1].first && WithFirst(a, key) == WithFirst(b, key)
    ensures WithFirst(a[..|a| - 1], key) == WithFirst(b[..|b| - 1], key)
    ensures key == a[|a| - 1].first ==> a[|a| - 1] == b[|b| - 1]
  {
    var (front, rest) := (WithFirst(a[..|a| - 1], key), WithFirst(b[..|b| - 1], key));
    if key == a[|a| - 1].first {
      LastOfEqual(front, a[|a| - 1], rest, b[|b| - 1]);
    } else {
      assert front + [] == front && rest + [] == rest;
    }
  }

  /** Two sorted lists whose items with equal keys agree in order are one list, so every stable sort gives this one. */
  lemma {:induction false} StableSortIsUnique(a: seq<ChainItem>, b: seq<ChainItem>)
    requires Sorted(a) && Sorted(b) && SameRuns(a, b)
    ensures a == b
    decreases |a|
  {
    if a == [] {
      EmptyRuns(b);
    } else if b == [] {
      EmptyRuns(a);
    } else {
      LastsAgree(a, b);
      FrontsAgree(a, b, a[|a| - 1].first);
      var (front, rest) := (a[..|a| - 1], b[..|b| - 1]);
      forall key: nat
        ensures WithFirst(front, key) == WithFirst(rest, key)
      {
        FrontsAgree(a, b, key);
      }
      StableSortIsUnique(front, rest);
      assert a == front + [a[|a| - 1]] && b == rest + [b[|b| - 1]];
    }
  }

  lemma LastOfEqual(a: seq<ChainItem>, x: ChainItem, b: seq<ChainItem>, y: ChainItem)
    requires a + [x] == b + [y]
    ensures a == b && x == y
  {
    assert (a + [x])[|a|] == x && (b + [y])[|b|] == y;
    assert (a + [x])[..|a|] == a && (b + [y])[..|b|] == b;
  }

  /** The cut-off: only the last log taken may reach the target, and none is left out before it. */
  lemma {:induction false} TakeToShape(logs: seq<ChainItem>, target: int)
    ensures var r := TakeTo(logs, target);
            && (forall i :: 0 <= i < |r| - 1 ==> r[i].time < target)
            && (r == logs || (r != [] && r[|r| - 1].time >= target))
            && (logs != [] ==> r != [])
            && ((r != [] && r[|r| - 1].time >= target) <==> exists i :: 0 <= i < |logs| && logs[i].time >= target)
  {
    if logs != [] && logs[0].time < target {
      TakeToShape(logs[1..], target);
      var r := TakeTo(logs, target);
      assert r[1..] == TakeTo(logs[1..], target);
      forall i | 0 <= i < |logs| && logs[i].time >= target
        ensures r[|r| - 1].time >= target
      {
        assert logs[1..][i - 1] == logs[i];
      }
    }
  }

  /** A log usable on top of `full` and what it takes to reach the target. */
  ghost predicate ReachedByLog(items: seq<ChainItem>, full: ChainItem, target: int) {
    exists x :: x in items && x.isLog && x.last > full.last && x.time >= target
  }

  ghost predicate HasLogPast(items: seq<ChainItem>, full: ChainItem) {
    exists x :: x in items && x.isLog && x.last > full.last
  }

  lemma SortedLogsAre(items: seq<ChainItem>, base: nat, x: ChainItem)
    ensures x in SortByFirst(LogsPast(items, base)) <==> x in items && x.isLog && x.last > base
  {
    var logs := SortByFirst(LogsPast(items, base));
    SortSorts(LogsPast(items, base));
    LogsPastCounts(items, base, x);
    assert x in logs <==> x in multiset(logs);
    assert x in items <==> x in multiset(items);
  }

  ghost predicate SomeReaches(logs: seq<ChainItem>, target: int) {
    exists i :: 0 <= i < |logs| && logs[i].time >= target
  }

  lemma CoveredByLogs(full: ChainItem, logs: seq<ChainItem>, target: int)
    ensures ChainCovers([full] + TakeTo(logs, target), target)
            <==> if logs == [] then full.time >= target else SomeReaches(logs, target)
  {
    TakeToShape(logs, target);
    var r := TakeTo(logs, target);
    var chain := [full] + r;
    assert chain[|chain| - 1] == if r == [] then full else r[|r| - 1];
  }

  lemma LogsOfItems(items: seq<ChainItem>, full: ChainItem, target: int)
    ensures var logs := SortByFirst(LogsPast(items, full.last));
            && (logs == [] <==> !HasLogPast(items, full))
            && (SomeReaches(logs, target) <==> ReachedByLog(items, full, target))
  {
    var logs := SortByFirst(LogsPast(items, full.last));
    forall x
      ensures x in logs <==> x in items && x.isLog && x.last > full.last
    {
      SortedLogsAre(items, full.last, x);
    }
    if logs != [] { assert logs[0] in logs; }
    if SomeReaches(logs, target) {
      var i :| 0 <= i < |logs| && logs[i].time >= target;
      assert logs[i] in logs;
    }
    if ReachedByLog(items, full, target) {
      var x :| x in items && x.isLog && x.last > full.last && x.time >= target;
      assert x in logs;
    }
  }

  /**
   * The coverage check is exact: the selected chain reaches the target if and only
   * if a full at or before it exists and either some log ending past that full
   * finished at or after the target, or there is no such log and the full finished
   * exactly at it.
   */
  lemma CoverageIsExact(items: seq<ChainItem>, target: int)
    ensures ChainCovers(SelectChain(items, target), target)
            <==> match BestFull(items, target)
                 case None => false
                 case Some(full) =>
                   ReachedByLog(items, full, target) || (!HasLogPast(items, full) && full.time == target)
  {
    match BestFull(items, target)
    case None =>
    case Some(full) =>
      BestFullIsLatest(items, target);
      LogsOfItems(items, full, target);
      CoveredByLogs(full, SortByFirst(LogsPast(items, full.last)), target);
  }

  lemma TakenAre(items: seq<ChainItem>, base: nat, target: int)
    ensures var taken := TakeTo(SortByFirst(LogsPast(items, base)), target);
            && Sorted(taken)
            && forall i :: 0 <= i < |taken| ==> taken[i] in items && taken[i].isLog && taken[i].last > base
  {
    var logs := SortByFirst(LogsPast(items, base));
    SortSorts(LogsPast(items, base));
    var taken := TakeTo(logs, target);
    forall i | 0 <= i < |taken|
      ensures taken[i] in items && taken[i].isLog && taken[i].last > base
    {
      SortedLogsAre(items, base, taken[i]);
      assert taken[i] == logs[i];
    }
  }

  /** The full comes first, every log after it ends past the full, and only the last may reach the target. */
  lemma SelectedShape(items: seq<ChainItem>, target: int)
    ensures var chain := SelectChain(items, target);
            chain != [] ==>
              && BestFull(items, target) == Some(chain[0])
              && (forall i :: 0 < i < |chain| ==> chain[i] in items && chain[i].isLog && chain[i].last > chain[0].last)
              && (forall i :: 0 < i < |chain| - 1 ==> chain[i].time < target)
              && Sorted(chain[1..])
  {
    if BestFull(items, target).Some? {
      var full := BestFull(items, target).value;
      var logs := SortByFirst(LogsPast(items, full.last));
      TakeToShape(logs, target);
      TakenAre(items, full.last, target);
      var chain := SelectChain(items, target);
      assert chain == [full] + TakeTo(logs, target);
      assert chain[1..] == TakeTo(logs, target);
    }
  }

  // ---------------------------------------------------------------- on stored metadata

  predicate Fits(i: ChainItem) {
    i.first < U128_LIMIT && i.last < U128_LIMIT
  }

  /** What backups wrote is read back, so the chain is selected by the numbers the numerals denote. */
  lemma WrittenReadsBack(items: seq<ChainItem>, ms: seq<Stored>)
    requires |ms| == |items| && forall i :: 0 <= i < |items| ==> Fits(items[i]) && ms[i] == Written(items[i])
    ensures ItemsOf(ms) == items
  {
    forall i | 0 <= i < |items|
      ensures ItemsOf(ms)[i] == items[i]
    {
      ParseLsnOfDecimal(items[i].first);
      ParseLsnOfDecimal(items[i].last);
      assert ms[i] == Written(items[i]) && |"log"| != |"full"|;
    }
  }

  /** A log whose end does not parse is in no chain, whatever else is stored and whatever the target. */
  lemma UnreadableLogIsNeverPicked(ms: seq<Stored>, target: int, m: Stored)
    requires ItemOf(m).isLog && ParseUnsigned(Trim(m.lastLsn), U128_LIMIT).None?
    ensures ItemOf(m) !in SelectChain(ItemsOf(ms), target)
  {
    var chain := SelectChain(ItemsOf(ms), target);
    SelectedShape(ItemsOf(ms), target);
    BestFullIsLatest(ItemsOf(ms), target);
    if chain != [] { assert chain[0] == BestFull(ItemsOf(ms), target).value; }
  }

  // ---------------------------------------------------------------- replay

  /** RESTORE LOG: a log applies when it begins at or before the current LSN and ends past it. */
  function Replay(current: nat, logs: seq<ChainItem>): Option<nat>
    decreases |logs|
  {
    if logs == [] then Some(current)
    else if logs[0].first <= current < logs[0].last then Replay(logs[0].last, logs[1..])
    else None
  }

  /** Non-empty ranges, each beginning where the one before it ended. */
  ghost predicate GapFree(logs: seq<ChainItem>) {
    && (forall i :: 0 <= i < |logs| ==> logs[i].first < logs[i].last)
    && (forall i :: 0 <= i < |logs| - 1 ==> logs[i].last == logs[i + 1].first)
  }

  ghost predicate StrictlySorted(logs: seq<ChainItem>) {
    forall i, j :: 0 <= i < j < |logs| ==> logs[i].first < logs[j].first
  }

  lemma {:induction false} GapFreeIsSorted(logs: seq<ChainItem>, i: nat, j: nat)
    requires GapFree(logs) && i < j < |logs|
    ensures logs[i].first < logs[j].first && logs[i].last <= logs[j].first
    decreases j - i
  {
    if i + 1 < j { GapFreeIsSorted(logs, i, j - 1); }
  }

  lemma GapFreeTailIsSorted(logs: seq<ChainItem>, k: nat)
    requires GapFree(logs) && k <= |logs|
    ensures StrictlySorted(logs[k..])
  {
    var rest := logs[k..];
    forall i, j | 0 <= i < j < |rest|
      ensures rest[i].first < rest[j].first
    {
      GapFreeIsSorted(logs, k + i, k + j);
    }
  }

  lemma HeadIsLeast(a: seq<ChainItem>, b: seq<ChainItem>)
    requires a != [] && Sorted(a) && b != [] && multiset(a) == multiset(b)
    ensures a[0].first <= b[0].first
  {
    assert b[0] in multiset(b);
    assert b[0] in a;
  }

  lemma TailMultiset(a: seq<ChainItem>, b: seq<ChainItem>)
    requires a != [] && b != [] && a[0] == b[0] && multiset(a) == multiset(b)
    ensures multiset(a[1..]) == multiset(b[1..])
  {
    assert a == [a[0]] + a[1..] && b == [b[0]] + b[1..];
    assert multiset(a[1..]) == multiset(a) - multiset{a[0]};
    assert multiset(b[1..]) == multiset(b) - multiset{b[0]};
  }

  /** A strictly sorted list is the only sorted list of its items. */
  lemma {:induction false} SortedIsUnique(a: seq<ChainItem>, b: seq<ChainItem>)
    requires StrictlySorted(a) && Sorted(b) && multiset(a) == multiset(b)
    ensures a == b
  {
    assert |multiset(a)| == |a| && |multiset(b)| == |b|;
    if a != [] {
      HeadIsLeast(a, b);
      HeadIsLeast(b, a);
      assert b[0] in multiset(b);
      assert b[0] in a;
      assert a[0] == b[0];
      TailMultiset(a, b);
      SortedIsUnique(a[1..], b[1..]);
      assert a == [a[0]] + a[1..] && b == [b[0]] + b[1..];
    }
  }

  /** The first log of a gap-free list that ends past `base`, or the length. */
  function FirstPast(logs: seq<ChainItem>, base: nat): (k: nat)
    ensures k <= |logs| && (k < |logs| ==> logs[k].last > base)
    ensures forall i :: 0 <= i < k ==> logs[i].last <= base
  {
    if logs == [] || logs[0].last > base then 0 else 1 + FirstPast(logs[1..], base)
  }

  lemma {:induction false} LogsPastConcat(a: seq<ChainItem>, b: seq<ChainItem>, base: nat)
    ensures LogsPast(a + b, base) == LogsPast(a, base) + LogsPast(b, base)
  {
    if b == [] {
      assert a + b == a;
    } else {
      var front, last := b[..|b| - 1], b[|b| - 1];
      LogsPastConcat(a, front, base);
      assert (a + b)[..|a + b| - 1] == a + front && (a + b)[|a + b| - 1] == last;
      Bytes.Associative(LogsPast(a, base), LogsPast(front, base),
                        if last.isLog && last.last > base then [last] else []);
    }
  }

  lemma {:induction false} LogsPastAllOrNone(logs: seq<ChainItem>, base: nat, past: bool)
    requires forall i :: 0 <= i < |logs| ==> logs[i].isLog && (logs[i].last > base <==> past)
    ensures LogsPast(logs, base) == if past then logs else []
  {
    if logs != [] {
      LogsPastAllOrNone(logs[..|logs| - 1], base, past);
      assert logs == logs[..|logs| - 1] + [logs[|logs| - 1]];
    }
  }

  lemma LogsPastSplits(logs: seq<ChainItem>, base: nat, k: nat)
    requires k <= |logs| && forall i :: 0 <= i < |logs| ==> logs[i].isLog && (logs[i].last > base <==> k <= i)
    ensures LogsPast(logs, base) == logs[k..]
  {
    LogsPastAllOrNone(logs[..k], base, false);
    LogsPastAllOrNone(logs[k..], base, true);
    LogsPastConcat(logs[..k], logs[k..], base);
    assert logs == logs[..k] + logs[k..];
  }

  lemma LogsPastOfGapFree(logs: seq<ChainItem>, base: nat)
    requires GapFree(logs) && forall i :: 0 <= i < |logs| ==> logs[i].isLog
    ensures LogsPast(logs, base) == logs[FirstPast(logs, base)..]
  {
    var k := FirstPast(logs, base);
    forall i | 0 <= i < |logs|
      ensures logs[i].isLog && (logs[i].last > base <==> k <= i)
    {
      if k < i { GapFreeIsSorted(logs, k, i); }
    }
    LogsPastSplits(logs, base, k);
  }

  lemma {:induction false} ReplayRuns(logs: seq<ChainItem>, current: nat)
    requires GapFree(logs) && (logs != [] ==> logs[0].first <= current < logs[0].last)
    ensures Replay(current, logs) == Some(if logs == [] then current else logs[|logs| - 1].last)
  {
    if logs != [] {
      assert forall i :: 0 <= i < |logs| - 1 ==> logs[1..][i] == logs[i + 1];
      ReplayRuns(logs[1..], logs[0].last);
    }
  }

  /** The logs among the items are those of `ordered`, which is gap-free and starts at or before the full's end. */
  ghost predicate StoredChain(items: seq<ChainItem>, ordered: seq<ChainItem>, base: nat) {
    && (forall x :: multiset(ordered)[x] == if x.isLog then multiset(items)[x] else 0)
    && GapFree(ordered)
    && (ordered != [] ==> ordered[0].first <= base)
  }

  lemma SameLogsPast(items: seq<ChainItem>, ordered: seq<ChainItem>, base: nat)
    requires forall x :: multiset(ordered)[x] == if x.isLog then multiset(items)[x] else 0
    ensures multiset(LogsPast(ordered, base)) == multiset(LogsPast(items, base))
  {
    forall x
      ensures multiset(LogsPast(ordered, base))[x] == multiset(LogsPast(items, base))[x]
    {
      LogsPastCounts(items, base, x);
      LogsPastCounts(ordered, base, x);
    }
  }

  /** Sorting what was stored recovers the chain from the log that bridges the full. */
  lemma SortedIsTheChain(items: seq<ChainItem>, ordered: seq<ChainItem>, base: nat)
    requires StoredChain(items, ordered, base)
    ensures SortByFirst(LogsPast(items, base)) == ordered[FirstPast(ordered, base)..]
  {
    var rest := ordered[FirstPast(ordered, base)..];
    forall i | 0 <= i < |ordered|
      ensures ordered[i].isLog
    {
      assert ordered[i] in multiset(ordered);
    }
    LogsPastOfGapFree(ordered, base);
    SameLogsPast(items, ordered, base);
    GapFreeTailIsSorted(ordered, FirstPast(ordered, base));
    SortSorts(LogsPast(items, base));
    SortedIsUnique(rest, SortByFirst(LogsPast(items, base)));
  }

  /** Any run of a gap-free chain from the bridging log on can be applied. */
  lemma SegmentReplays(ordered: seq<ChainItem>, base: nat, logs: seq<ChainItem>)
    requires GapFree(ordered) && (ordered != [] ==> ordered[0].first <= base)
    requires logs <= ordered[FirstPast(ordered, base)..]
    ensures Replay(base, logs) == Some(if logs == [] then base else logs[|logs| - 1].last)
  {
    var a := FirstPast(ordered, base);
    assert forall i :: 0 <= i < |logs| ==> logs[i] == ordered[a + i];
    if logs != [] && a > 0 {
      assert ordered[a - 1].last == ordered[a].first;
    }
    ReplayRuns(logs, base);
  }

  /**
   * When the stored logs form one gap-free chain spanning the chosen full's end,
   * the selected logs are a contiguous run of it from the log that bridges the
   * full, none skipped, and every one applies when it is replayed.
   */
  lemma ReplayIsValid(items: seq<ChainItem>, target: int, ordered: seq<ChainItem>)
    requires BestFull(items, target).Some?
    requires StoredChain(items, ordered, BestFull(items, target).value.last)
    ensures var full := BestFull(items, target).value;
            var logs := SelectChain(items, target)[1..];
            && logs <= ordered[FirstPast(ordered, full.last)..]
            && Replay(full.last, logs) == Some(if logs == [] then full.last else logs[|logs| - 1].last)
  {
    var base := BestFull(items, target).value.last;
    SortedIsTheChain(items, ordered, base);
    var logs := TakeTo(SortByFirst(LogsPast(items, base)), target);
    assert SelectChain(items, target)[1..] == logs;
    SegmentReplays(ordered, base, logs);
  }

  // ---------------------------------------------------------------- input order

  /** No two fulls finished at the same time and no two logs start at the same LSN. */
  ghost predicate Distinct(items: seq<ChainItem>) {
    && (forall x, y :: x in items && y in items && !x.isLog && !y.isLog && x.time == y.time ==> x == y)
    && (forall x, y :: x in items && y in items && x.isLog && y.isLog && x.first == y.first ==> x == y)
    && (forall x :: x in items && x.isLog ==> multiset(items)[x] == 1)
  }

  lemma TwicePresent(s: seq<ChainItem>, i: nat, j: nat)
    requires i < j < |s| && s[i] == s[j]
    ensures multiset(s)[s[i]] >= 2
  {
    assert s == s[..j] + [s[j]] + s[j + 1..];
    assert s[..j][i] == s[i];
    assert s[i] in multiset(s[..j]);
  }

  lemma SortIsStrict(items: seq<ChainItem>, base: nat)
    requires Distinct(items)
    ensures StrictlySorted(SortByFirst(LogsPast(items, base)))
  {
    var logs := SortByFirst(LogsPast(items, base));
    SortSorts(LogsPast(items, base));
    forall i, j | 0 <= i < j < |logs|
      ensures logs[i].first < logs[j].first
    {
      SortedLogsAre(items, base, logs[i]);
      SortedLogsAre(items, base, logs[j]);
      if logs[i].first == logs[j].first {
        LogsPastCounts(items, base, logs[i]);
        TwicePresent(logs, i, j);
        assert false;
      }
    }
  }

  /** The selection does not depend on the order the snapshots were listed in. */
  lemma OrderDoesNotMatter(items: seq<ChainItem>, shuffled: seq<ChainItem>, target: int)
    requires Distinct(items) && multiset(items) == multiset(shuffled)
    ensures SelectChain(items, target) == SelectChain(shuffled, target)
  {
    assert forall x :: x in items <==> x in multiset(items);
    assert forall x :: x in shuffled <==> x in multiset(shuffled);
    BestFullIsLatest(items, target);
    BestFullIsLatest(shuffled, target);
    assert BestFull(items, target) == BestFull(shuffled, target);
    if BestFull(items, target).Some? {
      var base := BestFull(items, target).value.last;
      var a, b := SortByFirst(LogsPast(items, base)), SortByFirst(LogsPast(shuffled, base));
      SortSorts(LogsPast(items, base));
      SortSorts(LogsPast(shuffled, base));
      SortIsStrict(items, base);
      forall x
        ensures multiset(a)[x] == multiset(b)[x]
      {
        LogsPastCounts(items, base, x);
        LogsPastCounts(shuffled, base, x);
      }
      SortedIsUnique(a, b);
    }
  }
}
