/**
 Snapshot listing and retention: the snapshots of a directory newest first, and which of them
 a policy keeps. Parsing a file name into its instant and reason is a parameter.
 */
module Retention {
  import opened Collections
  import opened Wrappers

  /** A snapshot; its file name is its identity. */
  datatype Info = Info(id: string, createdAt: int, reason: string)

  /** The instant and the reason a file name spells, or nothing when it is not a snapshot's. */
  type NameParser = string -> Option<(int, string)>

  // ---------------------------------------------------------------- listing

  function Parsed(parse: NameParser, names: seq<string>): seq<Info> {
    if names == [] then []
    else
      var name := names[|names| - 1];
      var earlier := Parsed(parse, names[..|names| - 1]);
      if parse(name).None? then earlier else earlier + [Info(name, parse(name).value.0, parse(name).value.1)]
  }

  /** Puts `x` after every snapshot that is not older. */
  function InsertNewest(sorted: seq<Info>, x: Info): seq<Info> {
    if sorted == [] || sorted[|sorted| - 1].createdAt >= x.createdAt then sorted + [x]
    else InsertNewest(sorted[..|sorted| - 1], x) + [sorted[|sorted| - 1]]
  }

  /** The stable sort by descending instant. */
  function NewestFirst(list: seq<Info>): seq<Info> {
    if list == [] then [] else InsertNewest(NewestFirst(list[..|list| - 1]), list[|list| - 1])
  }

  method ListSnapshots(parse: NameParser, names: seq<string>) returns (snapshots: seq<Info>)
    ensures snapshots == NewestFirst(Parsed(parse, names))
  {
    var found: seq<Info> := [];
    for n := 0 to |names|
      invariant found == Parsed(parse, names[..n])
    {
      assert names[..n + 1][..n] == names[..n];
      if parse(names[n]).Some? {
        found := found + [Info(names[n], parse(names[n]).value.0, parse(names[n]).value.1)];
      }
    }
    assert names[..|names|] == names;
    snapshots := [];
    for n := 0 to |found|
      invariant snapshots == NewestFirst(found[..n])
    {
      assert found[..n + 1][..n] == found[..n];
      snapshots := InsertNewest(snapshots, found[n]);
    }
    assert found[..|found|] == found;
  }

  ghost predicate Descending(list: seq<Info>) {
    forall i, j :: 0 <= i < j < |list| ==> list[i].createdAt >= list[j].createdAt
  }

  lemma {:induction false} InsertMembers(sorted: seq<Info>, x: Info)
    ensures |InsertNewest(sorted, x)| == |sorted| + 1
    ensures forall y :: y in InsertNewest(sorted, x) <==> y == x || y in sorted
  {
    if sorted != [] && sorted[|sorted| - 1].createdAt < x.createdAt {
      var front, last := sorted[..|sorted| - 1], sorted[|sorted| - 1];
      InsertMembers(front, x);
      assert sorted == front + [last];
    }
  }

  lemma {:induction false} InsertKeepsOrder(sorted: seq<Info>, x: Info)
    requires Descending(sorted)
    ensures Descending(InsertNewest(sorted, x))
  {
    if sorted != [] && sorted[|sorted| - 1].createdAt < x.createdAt {
      var front, last := sorted[..|sorted| - 1], sorted[|sorted| - 1];
      InsertKeepsOrder(front, x);
      InsertMembers(front, x);
      var r := InsertNewest(front, x);
      forall k | 0 <= k < |r|
        ensures r[k].createdAt >= last.createdAt
      {
        assert r[k] == x || r[k] in front;
      }
    }
  }

  lemma {:induction false} SortMeans(list: seq<Info>)
    ensures Descending(NewestFirst(list)) && |NewestFirst(list)| == |list|
    ensures forall x :: x in NewestFirst(list) <==> x in list
  {
    if list != [] {
      var front, last := list[..|list| - 1], list[|list| - 1];
      SortMeans(front);
      InsertMembers(NewestFirst(front), last);
      InsertKeepsOrder(NewestFirst(front), last);
      assert list == front + [last];
    }
  }

  /** A directory lists no name twice, so no two snapshots share one. */
  lemma {:induction false} ParsedDistinct(parse: NameParser, names: seq<string>)
    requires forall i, j :: 0 <= i < j < |names| ==> names[i] != names[j]
    ensures Distinct(Parsed(parse, names)) && forall x :: x in Parsed(parse, names) ==> x.id in names
  {
    if names != [] {
      ParsedDistinct(parse, names[..|names| - 1]);
      var earlier := Parsed(parse, names[..|names| - 1]);
      forall k | 0 <= k < |earlier|
        ensures earlier[k].id != names[|names| - 1]
      {
        assert earlier[k] in earlier;
      }
    }
  }

  /** No two snapshots share a file name. */
  predicate Distinct(list: seq<Info>) {
    forall i, j :: 0 <= i < j < |list| ==> list[i].id != list[j].id
  }

  lemma {:induction false} InsertKeepsDistinct(sorted: seq<Info>, x: Info)
    requires Distinct(sorted) && forall y :: y in sorted ==> y.id != x.id
    ensures Distinct(InsertNewest(sorted, x))
  {
    if sorted != [] && sorted[|sorted| - 1].createdAt < x.createdAt {
      var front, last := sorted[..|sorted| - 1], sorted[|sorted| - 1];
      InsertKeepsDistinct(front, x);
      InsertMembers(front, x);
      var r := InsertNewest(front, x);
      forall k | 0 <= k < |r|
        ensures r[k].id != last.id
      {
        assert r[k] == x || r[k] in front;
      }
    }
  }

  lemma {:induction false} DistinctSorted(list: seq<Info>)
    requires Distinct(list)
    ensures Distinct(NewestFirst(list))
  {
    if list != [] {
      var front, last := list[..|list| - 1], list[|list| - 1];
      DistinctSorted(front);
      SortMeans(front);
      InsertKeepsDistinct(NewestFirst(front), last);
    }
  }

  // ---------------------------------------------------------------- the policy

  /** The first pre-restore snapshot of the list: the only undo of the restore it preceded. */
  function UndoOf(sorted: seq<Info>): Option<string> {
    if sorted == [] then None
    else
      var earlier, last := UndoOf(sorted[..|sorted| - 1]), sorted[|sorted| - 1];
      if earlier.Some? then earlier else if last.reason == "preRestore" then Some(last.id) else None
  }

  predicate Kept(sorted: seq<Info>, i: nat, keepLatest: int, cutoff: int)
    requires i < |sorted|
  {
    || i == 0
    || Some(sorted[i].id) == UndoOf(sorted)
    || (i < keepLatest && sorted[i].createdAt >= cutoff)
  }

  function Cutoff(maxAgeDays: int, now: int): int {
    now - maxAgeDays * 86_400_000
  }

  /** What the first `n` steps of a pass leave alone, and what they unlink. */
  function Pass(sorted: seq<Info>, keepLatest: int, cutoff: int, n: nat): (seq<Info>, seq<Info>)
    requires n <= |sorted|
  {
    if n == 0 then ([], [])
    else
      var (kept, removed) := Pass(sorted, keepLatest, cutoff, n - 1);
      if Kept(sorted, n - 1, keepLatest, cutoff) then (kept + [sorted[n - 1]], removed)
      else (kept, removed + [sorted[n - 1]])
  }

  function Survivors(list: seq<Info>, keepLatest: int, cutoff: int): seq<Info> {
    var sorted := NewestFirst(list);
    Pass(sorted, keepLatest, cutoff, |sorted|).0
  }

  function Removed(list: seq<Info>, keepLatest: int, cutoff: int): seq<Info> {
    var sorted := NewestFirst(list);
    Pass(sorted, keepLatest, cutoff, |sorted|).1
  }

  method ApplyRetention(parse: NameParser, names: seq<string>, keepLatest: int, maxAgeDays: int, now: int)
    returns (removed: seq<Info>, kept: seq<Info>)
    ensures kept == Survivors(Parsed(parse, names), keepLatest, now - maxAgeDays * 24 * 60 * 60 * 1000)
    ensures removed == Removed(Parsed(parse, names), keepLatest, now - maxAgeDays * 24 * 60 * 60 * 1000)
  {
    var snapshots := ListSnapshots(parse, names);
    removed, kept := Decide(snapshots, keepLatest, Cutoff(maxAgeDays, now));
  }

  method Decide(snapshots: seq<Info>, keepLatest: int, cutoff: int) returns (removed: seq<Info>, kept: seq<Info>)
    ensures (kept, removed) == Pass(snapshots, keepLatest, cutoff, |snapshots|)
  {
    var undo := UndoOf(snapshots);
    removed, kept := [], [];
    for index := 0 to |snapshots|
      invariant (kept, removed) == Pass(snapshots, keepLatest, cutoff, index)
    {
      var snapshot := snapshots[index];
      if index == 0 || Some(snapshot.id) == undo || (index < keepLatest && snapshot.createdAt >= cutoff) {
        kept := kept + [snapshot];
      } else {
        removed := removed + [snapshot];
      }
    }
  }

  // ---------------------------------------------------------------- what survives

  lemma {:induction false} KeptStays(sorted: seq<Info>, keepLatest: int, cutoff: int, n: nat, i: nat)
    requires i < n <= |sorted| && Kept(sorted, i, keepLatest, cutoff)
    ensures sorted[i] in Pass(sorted, keepLatest, cutoff, n).0
  {
    if i < n - 1 {
      KeptStays(sorted, keepLatest, cutoff, n - 1, i);
    }
  }

  /** The `k`th survivor stood at `k` or later, and was kept there. */
  lemma {:induction false} StayedWasKept(sorted: seq<Info>, keepLatest: int, cutoff: int, n: nat, k: nat)
    returns (i: nat)
    requires n <= |sorted| && k < |Pass(sorted, keepLatest, cutoff, n).0|
    ensures k <= i < n && sorted[i] == Pass(sorted, keepLatest, cutoff, n).0[k] && Kept(sorted, i, keepLatest, cutoff)
  {
    PassIsShort(sorted, keepLatest, cutoff, n - 1);
    if k < |Pass(sorted, keepLatest, cutoff, n - 1).0| {
      i := StayedWasKept(sorted, keepLatest, cutoff, n - 1, k);
    } else {
      i := n - 1;
    }
  }

  lemma {:induction false} PassIsShort(sorted: seq<Info>, keepLatest: int, cutoff: int, n: nat)
    requires n <= |sorted|
    ensures |Pass(sorted, keepLatest, cutoff, n).0| <= n
  {
    if n > 0 {
      PassIsShort(sorted, keepLatest, cutoff, n - 1);
    }
  }

  predicate IsUndo(sorted: seq<Info>, u: nat) {
    && u < |sorted| && sorted[u].reason == "preRestore" && UndoOf(sorted) == Some(sorted[u].id)
    && forall i :: 0 <= i < u ==> sorted[i].reason != "preRestore"
  }

  lemma {:induction false} UndoMeans(sorted: seq<Info>) returns (u: nat)
    ensures UndoOf(sorted).None? ==> forall i :: 0 <= i < |sorted| ==> sorted[i].reason != "preRestore"
    ensures UndoOf(sorted).Some? ==> IsUndo(sorted, u)
  {
    u := 0;
    if sorted != [] {
      u := UndoMeans(sorted[..|sorted| - 1]);
      if UndoOf(sorted[..|sorted| - 1]).None? {
        u := |sorted| - 1;
      }
    }
  }

  /** A snapshot at least as new as every other survives, whatever the policy. */
  lemma {:induction false} NewestSurvives(list: seq<Info>, keepLatest: int, cutoff: int) returns (newest: Info)
    requires list != []
    ensures newest in Survivors(list, keepLatest, cutoff) && newest in list
    ensures forall y :: y in list ==> y.createdAt <= newest.createdAt
  {
    var sorted := NewestFirst(list);
    SortMeans(list);
    KeptStays(sorted, keepLatest, cutoff, |sorted|, 0);
    newest := sorted[0];
    assert newest in sorted;
    forall y | y in list
      ensures y.createdAt <= newest.createdAt
    {
      assert y in sorted;
    }
  }

  /** In a sorted list the undo is at least as new as every other pre-restore snapshot. */
  lemma {:induction false} UndoIsNewest(sorted: seq<Info>, u: nat, y: Info)
    requires Descending(sorted) && IsUndo(sorted, u) && y in sorted && y.reason == "preRestore"
    ensures y.createdAt <= sorted[u].createdAt
  {
    var i :| 0 <= i < |sorted| && sorted[i] == y;
    assert i >= u;
  }

  /** So does a pre-restore snapshot at least as new as every other one. */
  lemma {:induction false} NewestUndoSurvives(list: seq<Info>, keepLatest: int, cutoff: int, some: Info)
    returns (undo: Info)
    requires some in list && some.reason == "preRestore"
    ensures undo in Survivors(list, keepLatest, cutoff) && undo in list && undo.reason == "preRestore"
    ensures forall y :: y in list && y.reason == "preRestore" ==> y.createdAt <= undo.createdAt
  {
    var sorted := NewestFirst(list);
    SortMeans(list);
    var u := UndoMeans(sorted);
    assert some in sorted;
    KeptStays(sorted, keepLatest, cutoff, |sorted|, u);
    undo := sorted[u];
    assert undo in sorted;
    forall y | y in list && y.reason == "preRestore"
      ensures y.createdAt <= undo.createdAt
    {
      UndoIsNewest(sorted, u, y);
    }
  }

  /** Every other snapshot survives exactly when it is within both bounds. */
  lemma {:induction false} OthersByBothBounds(list: seq<Info>, keepLatest: int, cutoff: int, i: nat)
    requires Distinct(list) && 0 < i < |NewestFirst(list)|
    requires Some(NewestFirst(list)[i].id) != UndoOf(NewestFirst(list))
    ensures NewestFirst(list)[i] in Survivors(list, keepLatest, cutoff)
            <==> i < keepLatest && NewestFirst(list)[i].createdAt >= cutoff
  {
    DistinctSorted(list);
    var sorted, survivors := NewestFirst(list), Survivors(list, keepLatest, cutoff);
    if i < keepLatest && sorted[i].createdAt >= cutoff {
      KeptStays(sorted, keepLatest, cutoff, |sorted|, i);
    }
    if sorted[i] in survivors {
      var k :| 0 <= k < |survivors| && survivors[k] == sorted[i];
      var at := StayedWasKept(sorted, keepLatest, cutoff, |sorted|, k);
      assert sorted[at].id == sorted[i].id;
    }
  }

  lemma {:induction false} KeptCount(sorted: seq<Info>, keepLatest: int, cutoff: int, u: nat, n: nat)
    requires Distinct(sorted) && n <= |sorted| && keepLatest >= 1
    requires UndoOf(sorted).Some? ==> u < |sorted| && UndoOf(sorted) == Some(sorted[u].id)
    ensures |Pass(sorted, keepLatest, cutoff, n).0| <=
            (if n <= keepLatest then n else keepLatest) + if keepLatest <= u < n then 1 else 0
  {
    if n > 0 {
      KeptCount(sorted, keepLatest, cutoff, u, n - 1);
    }
  }

  /** At most one more than the count bound remains. */
  lemma {:induction false} AtMostOneOver(list: seq<Info>, keepLatest: int, cutoff: int)
    requires Distinct(list) && keepLatest >= 1
    ensures |Survivors(list, keepLatest, cutoff)| <= keepLatest + 1
  {
    DistinctSorted(list);
    var sorted := NewestFirst(list);
    var u := UndoMeans(sorted);
    KeptCount(sorted, keepLatest, cutoff, u, |sorted|);
  }

  // ---------------------------------------------------------------- a second pass

  function Filter(list: seq<Info>, ids: set<string>): seq<Info> {
    if list == [] then []
    else
      var last := list[|list| - 1];
      var earlier := Filter(list[..|list| - 1], ids);
      if last.id in ids then earlier + [last] else earlier
  }

  lemma {:induction false} FilterLast(list: seq<Info>, x: Info, ids: set<string>)
    ensures Filter(list + [x], ids) == if x.id in ids then Filter(list, ids) + [x] else Filter(list, ids)
  {
    assert (list + [x])[..|list|] == list;
  }

  lemma {:induction false} FilterMembers(list: seq<Info>, ids: set<string>, x: Info)
    requires x in Filter(list, ids)
    ensures x in list && x.id in ids
  {
    var front, last := list[..|list| - 1], list[|list| - 1];
    if x in Filter(front, ids) {
      FilterMembers(front, ids, x);
    }
  }

  /** Inserting and filtering commute, because equal instants stay in order. */
  lemma {:induction false} InsertFilters(sorted: seq<Info>, x: Info, ids: set<string>)
    requires Descending(sorted)
    ensures Filter(InsertNewest(sorted, x), ids)
            == if x.id in ids then InsertNewest(Filter(sorted, ids), x) else Filter(sorted, ids)
  {
    FilterLast(sorted, x, ids);
    if sorted == [] || sorted[|sorted| - 1].createdAt >= x.createdAt {
      NotNewerGoesLast(sorted, x, ids);
    } else {
      var front, last := sorted[..|sorted| - 1], sorted[|sorted| - 1];
      InsertFilters(front, x, ids);
      FilterLast(InsertNewest(front, x), last, ids);
      InsertBeforeOlder(Filter(front, ids), last, x);
    }
  }

  lemma {:induction false} InsertBeforeOlder(front: seq<Info>, last: Info, x: Info)
    requires last.createdAt < x.createdAt
    ensures InsertNewest(front + [last], x) == InsertNewest(front, x) + [last]
  {
    assert (front + [last])[..|front|] == front;
  }

  lemma {:induction false} NotNewerGoesLast(sorted: seq<Info>, x: Info, ids: set<string>)
    requires Descending(sorted) && (sorted == [] || sorted[|sorted| - 1].createdAt >= x.createdAt)
    ensures InsertNewest(Filter(sorted, ids), x) == Filter(sorted, ids) + [x]
  {
    var kept := Filter(sorted, ids);
    if kept != [] {
      FilterMembers(sorted, ids, kept[|kept| - 1]);
    }
  }

  lemma {:induction false} SortFilters(list: seq<Info>, ids: set<string>)
    ensures NewestFirst(Filter(list, ids)) == Filter(NewestFirst(list), ids)
  {
    if list != [] {
      var front, last := list[..|list| - 1], list[|list| - 1];
      SortFilters(front, ids);
      SortMeans(front);
      InsertFilters(NewestFirst(front), last, ids);
      if last.id in ids {
        var kept := Filter(front, ids);
        assert (kept + [last])[..|kept|] == kept;
      }
    }
  }

  function Ids(list: seq<Info>): set<string> {
    set x | x in list :: x.id
  }

  lemma {:induction false} FilterIsPass(sorted: seq<Info>, keepLatest: int, cutoff: int, n: nat, ids: set<string>)
    requires n <= |sorted|
    requires forall i :: 0 <= i < n ==> (sorted[i].id in ids <==> Kept(sorted, i, keepLatest, cutoff))
    ensures Filter(sorted[..n], ids) == Pass(sorted, keepLatest, cutoff, n).0
  {
    if n > 0 {
      FilterIsPass(sorted, keepLatest, cutoff, n - 1, ids);
      assert sorted[..n] == sorted[..n - 1] + [sorted[n - 1]];
      FilterLast(sorted[..n - 1], sorted[n - 1], ids);
    }
  }

  /** What is left of the directory after a pass, in directory order. */
  function Remaining(list: seq<Info>, keepLatest: int, cutoff: int): seq<Info> {
    Filter(list, Ids(Survivors(list, keepLatest, cutoff)))
  }

  lemma {:induction false} SurvivorById(sorted: seq<Info>, keepLatest: int, cutoff: int, i: nat)
    requires Distinct(sorted) && i < |sorted|
    ensures sorted[i].id in Ids(Pass(sorted, keepLatest, cutoff, |sorted|).0) <==> Kept(sorted, i, keepLatest, cutoff)
  {
    var survivors := Pass(sorted, keepLatest, cutoff, |sorted|).0;
    if Kept(sorted, i, keepLatest, cutoff) {
      KeptStays(sorted, keepLatest, cutoff, |sorted|, i);
    }
    if sorted[i].id in Ids(survivors) {
      var x :| x in survivors && x.id == sorted[i].id;
      var k :| 0 <= k < |survivors| && survivors[k] == x;
      var at := StayedWasKept(sorted, keepLatest, cutoff, |sorted|, k);
      assert sorted[at].id == sorted[i].id;
    }
  }

  lemma {:induction false} RemovedWasNotKept(sorted: seq<Info>, keepLatest: int, cutoff: int, n: nat, i: nat)
    requires Distinct(sorted) && n <= |sorted| && i < |sorted|
    ensures sorted[i] in Pass(sorted, keepLatest, cutoff, n).1 <==> i < n && !Kept(sorted, i, keepLatest, cutoff)
  {
    if n > 0 {
      RemovedWasNotKept(sorted, keepLatest, cutoff, n - 1, i);
      assert sorted[i] == sorted[n - 1] ==> i == n - 1;
    }
  }

  /** Every snapshot of the directory is either left alone or unlinked, and not both. */
  lemma {:induction false} EverySnapshotIsDecided(list: seq<Info>, keepLatest: int, cutoff: int, x: Info)
    requires Distinct(list) && x in list
    ensures x in Survivors(list, keepLatest, cutoff) <==> x !in Removed(list, keepLatest, cutoff)
  {
    var sorted := NewestFirst(list);
    SortMeans(list);
    DistinctSorted(list);
    assert x in sorted;
    var i :| 0 <= i < |sorted| && sorted[i] == x;
    RemovedWasNotKept(sorted, keepLatest, cutoff, |sorted|, i);
    SurvivorById(sorted, keepLatest, cutoff, i);
    if Kept(sorted, i, keepLatest, cutoff) {
      KeptStays(sorted, keepLatest, cutoff, |sorted|, i);
    }
  }

  lemma {:induction false} RemainingSorts(list: seq<Info>, keepLatest: int, cutoff: int)
    requires Distinct(list)
    ensures NewestFirst(Remaining(list, keepLatest, cutoff)) == Survivors(list, keepLatest, cutoff)
  {
    DistinctSorted(list);
    var sorted := NewestFirst(list);
    var ids := Ids(Survivors(list, keepLatest, cutoff));
    SortFilters(list, ids);
    forall i | 0 <= i < |sorted|
      ensures sorted[i].id in ids <==> Kept(sorted, i, keepLatest, cutoff)
    {
      SurvivorById(sorted, keepLatest, cutoff, i);
    }
    FilterIsPass(sorted, keepLatest, cutoff, |sorted|, ids);
    assert sorted[..|sorted|] == sorted;
  }

  lemma {:induction false} UndoOfPrefix(sorted: seq<Info>, n: nat)
    requires n <= |sorted| && UndoOf(sorted[..n]).Some?
    ensures UndoOf(sorted) == UndoOf(sorted[..n])
  {
    if n < |sorted| {
      var front := sorted[..|sorted| - 1];
      assert front[..n] == sorted[..n];
      UndoOfPrefix(front, n);
    } else {
      assert sorted[..n] == sorted;
    }
  }

  lemma {:induction false} UndoOfLast(list: seq<Info>, x: Info)
    ensures UndoOf(list + [x]) ==
            if UndoOf(list).Some? then UndoOf(list) else if x.reason == "preRestore" then Some(x.id) else None
  {
    assert (list + [x])[..|list|] == list;
  }

  /** A pass does not change which snapshot is the undo. */
  lemma {:induction false} UndoOfPass(sorted: seq<Info>, keepLatest: int, cutoff: int, n: nat)
    requires n <= |sorted|
    ensures UndoOf(Pass(sorted, keepLatest, cutoff, n).0) == UndoOf(sorted[..n])
  {
    if n > 0 {
      UndoOfPass(sorted, keepLatest, cutoff, n - 1);
      var before, last := sorted[..n - 1], sorted[n - 1];
      assert sorted[..n] == before + [last];
      UndoOfLast(before, last);
      UndoOfLast(Pass(sorted, keepLatest, cutoff, n - 1).0, last);
      if UndoOf(sorted[..n]).Some? {
        UndoOfPrefix(sorted, n);
      }
    }
  }

  lemma {:induction false} NothingToRemove(sorted: seq<Info>, keepLatest: int, cutoff: int, n: nat)
    requires n <= |sorted| && forall i: nat :: i < n ==> Kept(sorted, i, keepLatest, cutoff)
    ensures Pass(sorted, keepLatest, cutoff, n) == (sorted[..n], [])
  {
    if n > 0 {
      NothingToRemove(sorted, keepLatest, cutoff, n - 1);
      assert sorted[..n] == sorted[..n - 1] + [sorted[n - 1]];
    }
  }

  /** A second pass at the same instant, over the directory the first one left, removes nothing. */
  lemma {:induction false} SecondPassRemovesNothing(list: seq<Info>, keepLatest: int, cutoff: int)
    requires Distinct(list)
    ensures Removed(Remaining(list, keepLatest, cutoff), keepLatest, cutoff) == []
    ensures Survivors(Remaining(list, keepLatest, cutoff), keepLatest, cutoff) == Survivors(list, keepLatest, cutoff)
  {
    var survivors := Survivors(list, keepLatest, cutoff);
    RemainingSorts(list, keepLatest, cutoff);
    SurvivorsKept(list, keepLatest, cutoff);
    NothingToRemove(survivors, keepLatest, cutoff, |survivors|);
    assert survivors[..|survivors|] == survivors;
  }

  /** No two snapshots share an instant. */
  predicate Apart(list: seq<Info>) {
    forall x, y :: x in list && y in list && x.createdAt == y.createdAt ==> x == y
  }

  /** The same snapshots, in whatever order. */
  ghost predicate SameSet(a: seq<Info>, b: seq<Info>) {
    forall x :: x in a <==> x in b
  }

  /** From the newest to the oldest, no instant twice. */
  predicate Strict(list: seq<Info>) {
    forall i, j :: 0 <= i < j < |list| ==> list[i].createdAt > list[j].createdAt
  }

  lemma {:induction false} LastIsOldest(list: seq<Info>)
    requires Strict(list) && list != []
    ensures var front, last := list[..|list| - 1], list[|list| - 1];
            && Strict(front) && last in list && (forall x :: x in list ==> x.createdAt >= last.createdAt)
            && forall x :: x in front <==> x in list && x.createdAt != last.createdAt
  {
    var front, last := list[..|list| - 1], list[|list| - 1];
    assert list == front + [last];
    forall x | x in front
      ensures x.createdAt != last.createdAt
    {
      var i :| 0 <= i < |front| && list[i] == x;
    }
  }

  lemma {:induction false} OneOrder(a: seq<Info>, b: seq<Info>)
    requires Strict(a) && Strict(b) && SameSet(a, b)
    ensures a == b
    decreases |a|
  {
    if a == [] && b != [] {
      var x := First(b);
    } else if a != [] && b == [] {
      var x := First(a);
    } else if a != [] {
      LastIsOldest(a);
      LastIsOldest(b);
      var x, y := a[|a| - 1], b[|b| - 1];
      assert x in b && y in a;
      assert x.createdAt == y.createdAt;
      assert x == y;
      OneOrder(a[..|a| - 1], b[..|b| - 1]);
    }
  }

  lemma {:induction false} SortIsStrict(list: seq<Info>)
    requires Distinct(list) && Apart(list)
    ensures Strict(NewestFirst(list)) && SameSet(NewestFirst(list), list)
  {
    SortMeans(list);
    DistinctSorted(list);
    var sorted := NewestFirst(list);
    forall i, j | 0 <= i < j < |sorted|
      ensures sorted[i].createdAt > sorted[j].createdAt
    {
      assert sorted[i] in list && sorted[j] in list;
    }
  }

  /** When no two instants are equal, the order of the directory does not matter. */
  lemma {:induction false} OrderOfDirectoryIrrelevant(list: seq<Info>, relisted: seq<Info>)
    requires Distinct(list) && Distinct(relisted) && Apart(list) && SameSet(list, relisted)
    ensures NewestFirst(list) == NewestFirst(relisted)
  {
    SortIsStrict(list);
    SortIsStrict(relisted);
    OneOrder(NewestFirst(list), NewestFirst(relisted));
  }

  // ---------------------------------------------------------------- relisted in any order

  function NewerCount(list: seq<Info>, t: int): nat {
    if list == [] then 0
    else NewerCount(list[..|list| - 1], t) + if list[|list| - 1].createdAt > t then 1 else 0
  }

  ghost function NewerSet(list: seq<Info>, t: int): set<Info> {
    set x | x in list && x.createdAt > t
  }

  lemma {:induction false} NewerSetLast(list: seq<Info>, x: Info, t: int)
    requires x !in list
    ensures |NewerSet(list + [x], t)| == |NewerSet(list, t)| + if x.createdAt > t then 1 else 0
  {
    assert NewerSet(list + [x], t) == NewerSet(list, t) + if x.createdAt > t then {x} else {};
  }

  lemma {:induction false} LastIsNew(list: seq<Info>)
    requires list != [] && Distinct(list)
    ensures list == list[..|list| - 1] + [list[|list| - 1]] && list[|list| - 1] !in list[..|list| - 1]
    ensures Distinct(list[..|list| - 1])
  {
  }

  lemma {:induction false} NewerCounted(list: seq<Info>, t: int)
    requires Distinct(list)
    ensures NewerCount(list, t) == |NewerSet(list, t)|
  {
    if list != [] {
      LastIsNew(list);
      NewerCounted(list[..|list| - 1], t);
      NewerSetLast(list[..|list| - 1], list[|list| - 1], t);
    }
  }

  lemma {:induction false} NewerFirst(list: seq<Info>, t: int, i: nat)
    requires Descending(list) && i < |list|
    ensures list[i].createdAt > t <==> i < NewerCount(list, t)
  {
    var front := list[..|list| - 1];
    if i < |front| {
      NewerFirst(front, t, i);
      if list[|list| - 1].createdAt > t {
        assert front[i].createdAt >= list[|list| - 1].createdAt;
      }
    } else {
      NewerAtMost(front, t);
      if list[i].createdAt > t {
        AllNewer(front, t);
      }
    }
  }

  lemma {:induction false} NewerAtMost(list: seq<Info>, t: int)
    ensures NewerCount(list, t) <= |list|
  {
    if list != [] {
      NewerAtMost(list[..|list| - 1], t);
    }
  }

  lemma {:induction false} AllNewer(list: seq<Info>, t: int)
    requires forall i :: 0 <= i < |list| ==> list[i].createdAt > t
    ensures NewerCount(list, t) == |list|
  {
    if list != [] {
      AllNewer(list[..|list| - 1], t);
    }
  }

  lemma {:induction false} SameCounts(a: seq<Info>, b: seq<Info>, t: int)
    requires Distinct(a) && Distinct(b) && SameSet(a, b)
    ensures NewerCount(a, t) == NewerCount(b, t)
  {
    NewerCounted(a, t);
    NewerCounted(b, t);
    assert NewerSet(a, t) == NewerSet(b, t);
  }

  /** Two sorted listings of the same snapshots have the same instant in every place. */
  lemma {:induction false} SameInstants(a: seq<Info>, b: seq<Info>, i: nat)
    requires Descending(a) && Descending(b) && Distinct(a) && Distinct(b) && SameSet(a, b)
    requires i < |a| && i < |b|
    ensures a[i].createdAt == b[i].createdAt
  {
    var t, u := a[i].createdAt, b[i].createdAt;
    SameCounts(a, b, t);
    SameCounts(a, b, u);
    NewerFirst(a, t, i);
    NewerFirst(b, t, i);
    NewerFirst(a, u, i);
    NewerFirst(b, u, i);
  }

  lemma {:induction false} SameLength(a: seq<Info>, b: seq<Info>)
    requires Distinct(a) && Distinct(b) && SameSet(a, b)
    ensures |a| == |b|
  {
    SizeOfSet(a);
    SizeOfSet(b);
    assert Members(a) == Members(b);
  }

  ghost function Members(list: seq<Info>): set<Info> {
    set x | x in list
  }

  lemma {:induction false} SizeOfSet(list: seq<Info>)
    requires Distinct(list)
    ensures |Members(list)| == |list|
  {
    if list != [] {
      LastIsNew(list);
      SizeOfSet(list[..|list| - 1]);
      MembersLast(list[..|list| - 1], list[|list| - 1]);
    }
  }

  lemma {:induction false} MembersLast(list: seq<Info>, x: Info)
    requires x !in list
    ensures |Members(list + [x])| == |Members(list)| + 1
  {
    assert Members(list + [x]) == Members(list) + {x};
  }

  /**
   What a pass leaves is fragile when its last snapshot stays only for being the undo and shares its
   instant with the one before it: the two can then be listed either way round.
   */
  predicate Fragile(survivors: seq<Info>, keepLatest: int, cutoff: int) {
    var last := |survivors| - 1;
    && last >= 1
    && UndoOf(survivors) == Some(survivors[last].id)
    && !(last < keepLatest && survivors[last].createdAt >= cutoff)
    && survivors[last - 1].createdAt == survivors[last].createdAt
  }

  /** An undo that comes last is the only pre-restore snapshot. */
  lemma {:induction false} LastUndoIsOnly(list: seq<Info>, i: nat)
    requires Distinct(list) && list != [] && UndoOf(list) == Some(list[|list| - 1].id) && i < |list|
    ensures list[i].reason == "preRestore" <==> i == |list| - 1
  {
    var u := UndoMeans(list);
    assert list[u].id == list[|list| - 1].id;
  }

  lemma {:induction false} OnlyUndo(list: seq<Info>, u: nat)
    requires Distinct(list) && u < |list|
    requires forall i :: 0 <= i < |list| ==> (list[i].reason == "preRestore" <==> i == u)
    ensures UndoOf(list) == Some(list[u].id)
  {
    var v := UndoMeans(list);
  }

  /** In a listing every place is kept, the place the relisting puts there is kept too, unless it is fragile. */
  lemma {:induction false} PlaceKept(a: seq<Info>, b: seq<Info>, keepLatest: int, cutoff: int, i: nat)
    requires Descending(a) && Descending(b) && Distinct(a) && Distinct(b) && SameSet(a, b) && |a| == |b| && i < |a|
    requires forall k: nat :: k < |a| ==> Kept(a, k, keepLatest, cutoff)
    requires !Fragile(a, keepLatest, cutoff)
    ensures Kept(b, i, keepLatest, cutoff)
  {
    SameInstants(a, b, i);
    if i > 0 && !(i < keepLatest && a[i].createdAt >= cutoff) {
      var last := |a| - 1;
      assert Kept(a, i, keepLatest, cutoff) && Kept(a, last, keepLatest, cutoff);
      assert a[last].createdAt <= a[i].createdAt;
      assert a[i].id == a[last].id;
      assert i == last;
      LastStays(a, b);
      UndoStays(a, b);
    }
  }

  lemma {:induction false} LastStays(a: seq<Info>, b: seq<Info>)
    requires Descending(a) && Descending(b) && Distinct(a) && Distinct(b) && SameSet(a, b) && |a| == |b| && |a| >= 2
    requires a[|a| - 2].createdAt != a[|a| - 1].createdAt
    ensures b[|a| - 1] == a[|a| - 1]
  {
    var last := |a| - 1;
    assert forall k :: 0 <= k < last ==> a[k].createdAt >= a[last - 1].createdAt > a[last].createdAt;
    SameInstants(a, b, last);
    var x := b[last];
    assert x in b;
    var j :| 0 <= j < |a| && a[j] == x;
  }

  lemma {:induction false} UndoStays(a: seq<Info>, b: seq<Info>)
    requires Distinct(a) && Distinct(b) && SameSet(a, b) && |a| == |b| && a != [] && b[|a| - 1] == a[|a| - 1]
    requires UndoOf(a) == Some(a[|a| - 1].id)
    ensures UndoOf(b) == Some(b[|a| - 1].id)
  {
    var last := |a| - 1;
    forall i | 0 <= i < |b|
      ensures b[i].reason == "preRestore" <==> i == last
    {
      var x := b[i];
      assert x in b;
      var j :| 0 <= j < |a| && a[j] == x;
      LastUndoIsOnly(a, j);
      assert j == last ==> b[i].id == b[last].id;
    }
    OnlyUndo(b, last);
  }

  lemma {:induction false} SurvivorsKept(list: seq<Info>, keepLatest: int, cutoff: int)
    requires Distinct(list)
    ensures forall k: nat :: k < |Survivors(list, keepLatest, cutoff)| ==>
              Kept(Survivors(list, keepLatest, cutoff), k, keepLatest, cutoff)
  {
    var sorted, survivors := NewestFirst(list), Survivors(list, keepLatest, cutoff);
    UndoOfPass(sorted, keepLatest, cutoff, |sorted|);
    assert sorted[..|sorted|] == sorted;
    forall k: nat | k < |survivors|
      ensures Kept(survivors, k, keepLatest, cutoff)
    {
      var i := StayedWasKept(sorted, keepLatest, cutoff, |sorted|, k);
      assert i == 0 ==> k == 0;
    }
  }

  lemma {:induction false} SurvivorsSorted(list: seq<Info>, keepLatest: int, cutoff: int)
    requires Distinct(list)
    ensures Descending(Survivors(list, keepLatest, cutoff)) && Distinct(Survivors(list, keepLatest, cutoff))
    ensures SameSet(Survivors(list, keepLatest, cutoff), Remaining(list, keepLatest, cutoff))
  {
    var remaining := Remaining(list, keepLatest, cutoff);
    RemainingSorts(list, keepLatest, cutoff);
    SortMeans(remaining);
    FilterDistinct(list, Ids(Survivors(list, keepLatest, cutoff)));
    DistinctSorted(remaining);
  }

  lemma {:induction false} FilterDistinct(list: seq<Info>, ids: set<string>)
    requires Distinct(list)
    ensures Distinct(Filter(list, ids))
  {
    if list != [] {
      var front, last := list[..|list| - 1], list[|list| - 1];
      FilterDistinct(front, ids);
      var kept := Filter(front, ids);
      forall k | 0 <= k < |kept|
        ensures kept[k].id != last.id
      {
        FilterMembers(front, ids, kept[k]);
      }
    }
  }

  /** A relisting of what a pass left. */
  ghost predicate Relists(relisted: seq<Info>, list: seq<Info>, keepLatest: int, cutoff: int) {
    Distinct(relisted) && SameSet(relisted, Remaining(list, keepLatest, cutoff))
  }

  lemma {:induction false} SturdyRelistingKept(list: seq<Info>, keepLatest: int, cutoff: int, relisted: seq<Info>)
    requires Distinct(list) && !Fragile(Survivors(list, keepLatest, cutoff), keepLatest, cutoff)
    requires Relists(relisted, list, keepLatest, cutoff)
    ensures Removed(relisted, keepLatest, cutoff) == []
  {
    var a, b := Survivors(list, keepLatest, cutoff), NewestFirst(relisted);
    SurvivorsSorted(list, keepLatest, cutoff);
    SurvivorsKept(list, keepLatest, cutoff);
    SortMeans(relisted);
    DistinctSorted(relisted);
    SameLength(a, b);
    forall i: nat | i < |b|
      ensures Kept(b, i, keepLatest, cutoff)
    {
      PlaceKept(a, b, keepLatest, cutoff, i);
    }
    NothingToRemove(b, keepLatest, cutoff, |b|);
  }

  lemma {:induction false} SortedIsSorted(list: seq<Info>)
    requires Descending(list)
    ensures NewestFirst(list) == list
  {
    if list != [] {
      var front, last := list[..|list| - 1], list[|list| - 1];
      SortedIsSorted(front);
      assert front + [last] == list;
    }
  }

  /** The last two snapshots the other way round. */
  function LastSwapped(list: seq<Info>): seq<Info>
    requires |list| >= 2
  {
    list[..|list| - 2] + [list[|list| - 1], list[|list| - 2]]
  }

  lemma {:induction false} LastSwappedIsSame(list: seq<Info>)
    requires |list| >= 2 && Descending(list) && Distinct(list)
    requires list[|list| - 2].createdAt == list[|list| - 1].createdAt
    ensures Descending(LastSwapped(list)) && Distinct(LastSwapped(list)) && SameSet(LastSwapped(list), list)
  {
    var n := |list|;
    assert list == list[..n - 2] + [list[n - 2], list[n - 1]];
  }

  lemma {:induction false} FragileRelistingRemoves(list: seq<Info>, keepLatest: int, cutoff: int)
    requires Distinct(list) && Fragile(Survivors(list, keepLatest, cutoff), keepLatest, cutoff)
    ensures var relisted := LastSwapped(Survivors(list, keepLatest, cutoff));
            Relists(relisted, list, keepLatest, cutoff) && Removed(relisted, keepLatest, cutoff) != []
  {
    var survivors := Survivors(list, keepLatest, cutoff);
    var relisted, last := LastSwapped(survivors), |survivors| - 1;
    SurvivorsSorted(list, keepLatest, cutoff);
    LastSwappedIsSame(survivors);
    SortedIsSorted(relisted);
    forall i | 0 <= i < |relisted|
      ensures relisted[i].reason == "preRestore" <==> i == last - 1
    {
      LastUndoIsOnly(survivors, if i < last - 1 then i else if i == last then last - 1 else last);
    }
    OnlyUndo(relisted, last - 1);
    assert relisted[last].id != relisted[last - 1].id;
    assert !Kept(relisted, last, keepLatest, cutoff);
    RemovedWasNotKept(relisted, keepLatest, cutoff, |relisted|, last);
  }

  /**
   A second pass at the same instant removes nothing, in whatever order the directory is listed, if
   and only if what the first pass left is not fragile. Distinct instants are never fragile.
   */
  lemma {:induction false} SecondPassInAnyOrder(list: seq<Info>, keepLatest: int, cutoff: int)
    requires Distinct(list)
    ensures (forall relisted ::
               Relists(relisted, list, keepLatest, cutoff) ==> Removed(relisted, keepLatest, cutoff) == [])
            <==> !Fragile(Survivors(list, keepLatest, cutoff), keepLatest, cutoff)
    ensures Apart(list) ==> !Fragile(Survivors(list, keepLatest, cutoff), keepLatest, cutoff)
  {
    if Fragile(Survivors(list, keepLatest, cutoff), keepLatest, cutoff) {
      FragileRelistingRemoves(list, keepLatest, cutoff);
    } else {
      forall relisted | Relists(relisted, list, keepLatest, cutoff)
        ensures Removed(relisted, keepLatest, cutoff) == []
      {
        SturdyRelistingKept(list, keepLatest, cutoff, relisted);
      }
    }
    if Apart(list) {
      ApartIsSturdy(list, keepLatest, cutoff);
    }
  }

  lemma {:induction false} ApartIsSturdy(list: seq<Info>, keepLatest: int, cutoff: int)
    requires Distinct(list) && Apart(list)
    ensures !Fragile(Survivors(list, keepLatest, cutoff), keepLatest, cutoff)
  {
    var survivors := Survivors(list, keepLatest, cutoff);
    SurvivorsSorted(list, keepLatest, cutoff);
    if |survivors| >= 2 {
      var x, y := survivors[|survivors| - 2], survivors[|survivors| - 1];
      assert x in survivors && y in survivors;
      FilterMembers(list, Ids(survivors), x);
      FilterMembers(list, Ids(survivors), y);
    }
  }

  /**
   Between equal instants it does: listed the other way round, two snapshots of one instant can
   cost the second pass a snapshot the first one kept.
   */
  lemma {:induction false} RelistingMayRemove()
    ensures var a, b := Info("a", 5, "manual"), Info("b", 5, "preRestore");
            Survivors([a, b], 1, 0) == [a, b] && Removed([b, a], 1, 0) == [a]
  {
    var a, b := Info("a", 5, "manual"), Info("b", 5, "preRestore");
    assert [a, b][..1] == [a] && [b, a][..1] == [b] && [a][..0] == [] && [b][..0] == [];
    assert NewestFirst([a]) == [a] && NewestFirst([b]) == [b];
    assert NewestFirst([a, b]) == [a, b] && NewestFirst([b, a]) == [b, a];
    assert UndoOf([a]) == None && UndoOf([b]) == Some("b");
    assert UndoOf([a, b]) == Some("b") && UndoOf([b, a]) == Some("b");
    assert Pass([a, b], 1, 0, 1) == ([a], []) && Pass([b, a], 1, 0, 1) == ([b], []);
  }
}
