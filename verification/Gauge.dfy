/**
 Holder-named gauges with expiry.

 A gauge is a list of slots per key. Every operation first forgets lapsed slots, for good,
 which is why the properties over runs ask for a clock that does not go back.
 */
module Gauge {
  import opened Wrappers

  datatype Slot = Slot(expiresAt: int, holder: Option<string>)

  /** A blank holder name: the one thing the gauge throws for. */
  datatype Refusal = BlankHolder

  function Live(slots: seq<Slot>, at: int): seq<Slot> {
    if slots == [] then []
    else
      var last := slots[|slots| - 1];
      Live(slots[..|slots| - 1], at) + if last.expiresAt > at then [last] else []
  }

  /** Where a holder's slot is, if it has one. */
  function Find(slots: seq<Slot>, holder: string): (r: Option<nat>)
    ensures r.Some? ==> r.value < |slots| && slots[r.value].holder == Some(holder)
  {
    if slots == [] then None
    else if slots[0].holder == Some(holder) then Some(0)
    else
      var rest := Find(slots[1..], holder);
      if rest.Some? then Some(rest.value + 1) else None
  }

  predicate Sorted(slots: seq<Slot>) {
    forall i, j :: 0 <= i < j < |slots| ==> slots[i].expiresAt <= slots[j].expiresAt
  }

  /** Insertion behind every slot that expires no later, which keeps the sort stable. */
  function InsertByExpiry(slots: seq<Slot>, x: Slot): seq<Slot> {
    if slots == [] || slots[|slots| - 1].expiresAt <= x.expiresAt then slots + [x]
    else InsertByExpiry(slots[..|slots| - 1], x) + [slots[|slots| - 1]]
  }

  function ByExpiry(slots: seq<Slot>): seq<Slot> {
    if slots == [] then [] else InsertByExpiry(ByExpiry(slots[..|slots| - 1]), slots[|slots| - 1])
  }

  // ---------------------------------------------------------------- one gauge

  /** The slots after an acquire, and what the gauge held besides the caller. */
  function AcquireSlots(slots: seq<Slot>, at: int, expiresAt: int, holder: Option<string>): (seq<Slot>, nat) {
    var held := Live(slots, at);
    var mine := if holder.None? then None else Find(held, holder.value);
    if mine.Some? then (held[mine.value := Slot(expiresAt, holder)], |held| - 1)
    else (held + [Slot(expiresAt, holder)], |held|)
  }

  function RenewSlots(slots: seq<Slot>, at: int, expiresAt: int, holder: string): seq<Slot> {
    var held := Live(slots, at);
    var mine := Find(held, holder);
    if mine.Some? then held[mine.value := Slot(expiresAt, Some(holder))] else held
  }

  function ReleaseSlots(slots: seq<Slot>, at: int, holder: Option<string>): seq<Slot> {
    var held := Live(slots, at);
    match holder
    case None => var sorted := ByExpiry(held); if sorted == [] then [] else sorted[1..]
    case Some(h) =>
      var mine := Find(held, h);
      if mine.Some? then held[..mine.value] + held[mine.value + 1..] else held
  }

  // ---------------------------------------------------------------- the coordinator's gauges

  function SlotsOf(gauges: map<string, seq<Slot>>, key: string): seq<Slot> {
    if key in gauges then gauges[key] else []
  }

  function Put(gauges: map<string, seq<Slot>>, key: string, held: seq<Slot>): map<string, seq<Slot>> {
    if held == [] then gauges - {key} else gauges[key := held]
  }

  /** What a key holds once everything under `prefix` has been swept of lapsed slots. */
  function SweptSlots(gauges: map<string, seq<Slot>>, prefix: string, at: int, key: string): seq<Slot> {
    if prefix <= key then Live(SlotsOf(gauges, key), at) else SlotsOf(gauges, key)
  }

  lemma {:induction false} PutPut(gauges: map<string, seq<Slot>>, key: string, first: seq<Slot>, second: seq<Slot>)
    ensures Put(Put(gauges, key, first), key, second) == Put(gauges, key, second)
  {
  }

  lemma {:induction false} PutSlots(gauges: map<string, seq<Slot>>, key: string, held: seq<Slot>, k: string)
    ensures SlotsOf(Put(gauges, key, held), k) == if k == key then held else SlotsOf(gauges, k)
  {
  }

  class Gauges {
    var gauges: map<string, seq<Slot>>

    constructor ()
      ensures gauges == map[]
    {
      gauges := map[];
    }

    method LiveSlots(key: string, at: int) returns (held: seq<Slot>)
      modifies this
      ensures held == Live(SlotsOf(old(gauges), key), at)
      ensures gauges == Put(old(gauges), key, held)
      ensures key in gauges <==> held != []
    {
      held := Live(SlotsOf(gauges, key), at);
      gauges := Put(gauges, key, held);
    }

    /** `at` is the clock when lapsed slots are dropped, `stamp` when the new expiry is set. */
    method Acquire(key: string, ttl: int, holder: Option<string>, at: int, stamp: int)
      returns (before: Result<nat, Refusal>)
      modifies this
      ensures holder == Some("") ==> before == Err(BlankHolder) && gauges == old(gauges)
      ensures holder != Some("") ==>
        var (held, others) := AcquireSlots(SlotsOf(old(gauges), key), at, stamp + ttl, holder);
        before == Ok(others) && gauges == Put(old(gauges), key, held)
    {
      if holder == Some("") {
        return Err(BlankHolder);
      }
      var held := LiveSlots(key, at);
      ghost var live := held;
      if holder.Some? {
        var mine := Find(held, holder.value);
        if mine.Some? {
          held := held[mine.value := Slot(stamp + ttl, holder)];
          gauges := gauges[key := held];
          PutPut(old(gauges), key, live, held);
          return Ok(|held| - 1);
        }
      }
      before := Ok(|held|);
      held := held + [Slot(stamp + ttl, holder)];
      gauges := gauges[key := held];
      PutPut(old(gauges), key, live, held);
    }

    method Renew(key: string, holder: string, ttl: int, at: int, stamp: int)
      returns (outcome: Result<(), Refusal>)
      modifies this
      ensures holder == "" ==> outcome == Err(BlankHolder) && gauges == old(gauges)
      ensures holder != "" ==>
        outcome == Ok(())
        && gauges == Put(old(gauges), key, RenewSlots(SlotsOf(old(gauges), key), at, stamp + ttl, holder))
    {
      if holder == "" {
        return Err(BlankHolder);
      }
      var held := LiveSlots(key, at);
      ghost var live := held;
      var mine := Find(held, holder);
      if mine.Some? {
        held := held[mine.value := Slot(stamp + ttl, Some(holder))];
        gauges := gauges[key := held];
        PutPut(old(gauges), key, live, held);
      }
      outcome := Ok(());
    }

    method Release(key: string, holder: Option<string>, at: int) returns (outcome: Result<(), Refusal>)
      modifies this
      ensures holder == Some("") ==> outcome == Err(BlankHolder) && gauges == old(gauges)
      ensures holder != Some("") ==>
        outcome == Ok(())
        && gauges == Put(old(gauges), key, ReleaseSlots(SlotsOf(old(gauges), key), at, holder))
        && (key in gauges <==> ReleaseSlots(SlotsOf(old(gauges), key), at, holder) != [])
    {
      if holder == Some("") {
        return Err(BlankHolder);
      }
      var held := LiveSlots(key, at);
      ghost var live := held;
      if holder.None? {
        var sorted := ByExpiry(held);
        held := if sorted == [] then [] else sorted[1..];
      } else {
        var mine := Find(held, holder.value);
        if mine.Some? {
          held := held[..mine.value] + held[mine.value + 1..];
        }
      }
      gauges := Put(gauges, key, held);
      PutPut(old(gauges), key, live, held);
      outcome := Ok(());
    }

    method Read(key: string, at: int) returns (count: nat)
      modifies this
      ensures count == |Live(SlotsOf(old(gauges), key), at)|
      ensures gauges == Put(old(gauges), key, Live(SlotsOf(old(gauges), key), at))
    {
      var held := LiveSlots(key, at);
      count := |held|;
    }

    /** Every held key under the prefix with its count, and no key whose slots have all lapsed. */
    method Snapshot(prefix: string, at: int) returns (out: map<string, nat>)
      modifies this
      ensures forall k :: k in out <==> prefix <= k && Live(SlotsOf(old(gauges), k), at) != []
      ensures forall k :: k in out ==> out[k] == |Live(SlotsOf(old(gauges), k), at)|
      ensures forall k :: SlotsOf(gauges, k) == SweptSlots(old(gauges), prefix, at, k)
    {
      out := map[];
      var todo := gauges.Keys;
      ghost var was := gauges;
      while todo != {}
        invariant Counted(out, was, todo, prefix, at) && SweptSoFar(gauges, was, todo, prefix, at)
        decreases todo
      {
        var key :| key in todo;
        CountedNext(out, was, todo, prefix, at, key);
        SweptNext(gauges, was, todo, prefix, at, key);
        todo := todo - {key};
        if prefix <= key {
          var held := LiveSlots(key, at);
          if |held| > 0 {
            out := out[key := |held|];
          }
        }
      }
    }
  }

  /** The keys already visited are counted exactly. */
  ghost predicate Counted(out: map<string, nat>, was: map<string, seq<Slot>>, todo: set<string>, prefix: string,
                          at: int) {
    && (forall k :: k in out <==> k !in todo && prefix <= k && Live(SlotsOf(was, k), at) != [])
    && (forall k :: k in out ==> out[k] == |Live(SlotsOf(was, k), at)|)
  }

  /** The keys already visited are swept, the others are as they were. */
  ghost predicate SweptSoFar(gauges: map<string, seq<Slot>>, was: map<string, seq<Slot>>, todo: set<string>,
                             prefix: string, at: int) {
    forall k :: SlotsOf(gauges, k) == if k in todo then SlotsOf(was, k) else SweptSlots(was, prefix, at, k)
  }

  lemma {:induction false} CountedNext(out: map<string, nat>, was: map<string, seq<Slot>>, todo: set<string>,
                                       prefix: string, at: int, key: string)
    requires Counted(out, was, todo, prefix, at) && key in todo
    ensures var held := Live(SlotsOf(was, key), at);
            Counted(if prefix <= key && held != [] then out[key := |held|] else out, was, todo - {key}, prefix, at)
  {
  }

  lemma {:induction false} SweptNext(gauges: map<string, seq<Slot>>, was: map<string, seq<Slot>>, todo: set<string>,
                                     prefix: string, at: int, key: string)
    requires SweptSoFar(gauges, was, todo, prefix, at) && key in todo
    ensures var held := Live(SlotsOf(gauges, key), at);
            SlotsOf(gauges, key) == SlotsOf(was, key)
            && SweptSoFar(if prefix <= key then Put(gauges, key, held) else gauges, was, todo - {key}, prefix, at)
  {
    var held := Live(SlotsOf(gauges, key), at);
    forall k
      ensures SlotsOf(Put(gauges, key, held), k) == if k == key then held else SlotsOf(gauges, k)
    {
      PutSlots(gauges, key, held, k);
    }
  }

  // ---------------------------------------------------------------- what a gauge means

  /** No two slots of one gauge carry the same name. */
  ghost predicate UniqueNames(slots: seq<Slot>) {
    forall i, j :: 0 <= i < j < |slots| && slots[i].holder.Some? ==> slots[i].holder != slots[j].holder
  }

  ghost predicate AllNamed(slots: seq<Slot>) {
    forall x :: x in slots ==> x.holder.Some?
  }

  /** The gauge as a map from holder to expiry. */
  ghost function Expiries(slots: seq<Slot>): map<string, int> {
    if slots == [] then map[]
    else
      var last := slots[|slots| - 1];
      var m := Expiries(slots[..|slots| - 1]);
      if last.holder.None? then m else m[last.holder.value := last.expiresAt]
  }

  /** The part of a holder-to-expiry map that is still ahead of the clock. */
  ghost function Unexpired(m: map<string, int>, at: int): map<string, int> {
    map h | h in m && m[h] > at :: m[h]
  }

  lemma {:induction false} LiveMembers(slots: seq<Slot>, at: int)
    ensures forall x :: x in Live(slots, at) <==> x in slots && x.expiresAt > at
  {
    if slots != [] {
      LiveMembers(slots[..|slots| - 1], at);
      assert slots == slots[..|slots| - 1] + [slots[|slots| - 1]];
    }
  }

  lemma {:induction false} FindMeans(slots: seq<Slot>, holder: string)
    requires Find(slots, holder).None?
    ensures forall x :: x in slots ==> x.holder != Some(holder)
  {
    if slots != [] {
      FindMeans(slots[1..], holder);
      assert slots == [slots[0]] + slots[1..];
    }
  }

  lemma {:induction false} ExpiryOf(slots: seq<Slot>, i: nat)
    requires UniqueNames(slots) && i < |slots| && slots[i].holder.Some?
    ensures slots[i].holder.value in Expiries(slots)
    ensures Expiries(slots)[slots[i].holder.value] == slots[i].expiresAt
  {
    var front := slots[..|slots| - 1];
    if i < |front| {
      ExpiryOf(front, i);
      assert slots[i].holder != slots[|slots| - 1].holder;
    }
  }

  lemma {:induction false} HolderOf(slots: seq<Slot>, h: string) returns (i: nat)
    requires h in Expiries(slots)
    ensures i < |slots| && slots[i].holder == Some(h)
  {
    if slots[|slots| - 1].holder == Some(h) {
      i := |slots| - 1;
    } else {
      i := HolderOf(slots[..|slots| - 1], h);
    }
  }

  /** Two gauges with unique names are the same map when they hold the same named slots. */
  lemma {:induction false} SameSlotsSameMap(a: seq<Slot>, b: map<string, int>)
    requires UniqueNames(a)
    requires forall x :: x in a && x.holder.Some? ==> x.holder.value in b && b[x.holder.value] == x.expiresAt
    requires forall h :: h in b ==> exists x :: x in a && x.holder == Some(h)
    ensures Expiries(a) == b
  {
    forall h | h in Expiries(a)
      ensures h in b && Expiries(a)[h] == b[h]
    {
      var i := HolderOf(a, h);
      ExpiryOf(a, i);
      assert a[i] in a;
    }
    forall h | h in b
      ensures h in Expiries(a)
    {
      var x :| x in a && x.holder == Some(h);
      var i :| 0 <= i < |a| && a[i] == x;
      ExpiryOf(a, i);
    }
  }

  lemma {:induction false} MembersInMap(slots: seq<Slot>)
    requires UniqueNames(slots)
    ensures forall x :: x in slots && x.holder.Some? ==>
      x.holder.value in Expiries(slots) && Expiries(slots)[x.holder.value] == x.expiresAt
    ensures forall h :: h in Expiries(slots) ==> exists x :: x in slots && x.holder == Some(h)
  {
    forall x | x in slots && x.holder.Some?
      ensures x.holder.value in Expiries(slots) && Expiries(slots)[x.holder.value] == x.expiresAt
    {
      var i :| 0 <= i < |slots| && slots[i] == x;
      ExpiryOf(slots, i);
    }
    forall h | h in Expiries(slots)
      ensures exists x :: x in slots && x.holder == Some(h)
    {
      var i := HolderOf(slots, h);
      assert slots[i] in slots;
    }
  }

  lemma {:induction false} NamedCount(slots: seq<Slot>)
    requires UniqueNames(slots) && AllNamed(slots)
    ensures |Expiries(slots)| == |slots|
  {
    if slots != [] {
      var front, last := slots[..|slots| - 1], slots[|slots| - 1];
      assert last in slots;
      assert forall x :: x in front ==> x in slots;
      NamedCount(front);
      if last.holder.value in Expiries(front) {
        var i := HolderOf(front, last.holder.value);
        assert false;
      }
    }
  }

  lemma {:induction false} LiveKeepsNames(slots: seq<Slot>, at: int)
    requires UniqueNames(slots)
    ensures UniqueNames(Live(slots, at))
  {
    if slots != [] {
      var front, last := slots[..|slots| - 1], slots[|slots| - 1];
      LiveKeepsNames(front, at);
      LiveMembers(front, at);
      forall x | x in Live(front, at) && x.holder.Some?
        ensures x.holder != last.holder
      {
        var i :| 0 <= i < |front| && front[i] == x;
        assert slots[i] == x;
      }
      AppendUnique(Live(front, at), last);
    }
  }

  lemma {:induction false} AppendUnique(slots: seq<Slot>, x: Slot)
    requires UniqueNames(slots)
    requires forall y :: y in slots && y.holder.Some? ==> y.holder != x.holder
    ensures UniqueNames(slots + [x])
  {
    var more := slots + [x];
    forall i, j | 0 <= i < j < |more| && more[i].holder.Some?
      ensures more[i].holder != more[j].holder
    {
      assert more[i] in slots;
    }
  }

  lemma {:induction false} LiveIsUnexpired(slots: seq<Slot>, at: int)
    requires UniqueNames(slots)
    ensures UniqueNames(Live(slots, at))
    ensures Expiries(Live(slots, at)) == Unexpired(Expiries(slots), at)
  {
    LiveKeepsNames(slots, at);
    LiveMembers(slots, at);
    MembersInMap(slots);
    SameSlotsSameMap(Live(slots, at), Unexpired(Expiries(slots), at));
  }

  // ---------------------------------------------------------------- operations on the map

  lemma {:induction false} ReplaceMovesExpiry(slots: seq<Slot>, i: nat, expiresAt: int)
    requires UniqueNames(slots) && i < |slots| && slots[i].holder.Some?
    ensures UniqueNames(slots[i := Slot(expiresAt, slots[i].holder)])
    ensures Expiries(slots[i := Slot(expiresAt, slots[i].holder)]) ==
            Expiries(slots)[slots[i].holder.value := expiresAt]
  {
    var moved := slots[i := Slot(expiresAt, slots[i].holder)];
    assert forall j :: 0 <= j < |slots| ==> moved[j].holder == slots[j].holder;
    var m := Expiries(slots)[slots[i].holder.value := expiresAt];
    MembersInMap(slots);
    forall x | x in moved && x.holder.Some?
      ensures x.holder.value in m && m[x.holder.value] == x.expiresAt
    {
      var j :| 0 <= j < |moved| && moved[j] == x;
      assert j != i ==> slots[j] in slots;
    }
    forall h | h in m
      ensures exists x :: x in moved && x.holder == Some(h)
    {
      if h == slots[i].holder.value {
        assert moved[i] in moved;
      } else {
        var j := HolderOf(slots, h);
        assert moved[j] in moved;
      }
    }
    SameSlotsSameMap(moved, m);
  }

  lemma {:induction false} RemoveKeepsNames(slots: seq<Slot>, i: nat)
    requires UniqueNames(slots) && i < |slots| && slots[i].holder.Some?
    ensures UniqueNames(slots[..i] + slots[i + 1..])
    ensures forall x :: x in slots[..i] + slots[i + 1..] ==> x in slots && x.holder != slots[i].holder
  {
    var fewer := slots[..i] + slots[i + 1..];
    forall j, k | 0 <= j < k < |fewer| && fewer[j].holder.Some?
      ensures fewer[j].holder != fewer[k].holder
    {
      assert fewer[j] == slots[if j < i then j else j + 1];
      assert fewer[k] == slots[if k < i then k else k + 1];
    }
    forall x | x in fewer
      ensures x in slots && x.holder != slots[i].holder
    {
      var j :| 0 <= j < |fewer| && fewer[j] == x;
      assert x == slots[if j < i then j else j + 1];
    }
  }

  lemma {:induction false} RemoveDropsHolder(slots: seq<Slot>, i: nat)
    requires UniqueNames(slots) && i < |slots| && slots[i].holder.Some?
    ensures UniqueNames(slots[..i] + slots[i + 1..])
    ensures Expiries(slots[..i] + slots[i + 1..]) == Expiries(slots) - {slots[i].holder.value}
  {
    var fewer := slots[..i] + slots[i + 1..];
    var m := Expiries(slots) - {slots[i].holder.value};
    RemoveKeepsNames(slots, i);
    MembersInMap(slots);
    forall h | h in m
      ensures exists x :: x in fewer && x.holder == Some(h)
    {
      var j := HolderOf(slots, h);
      assert slots[j] in fewer by {
        assert slots[j] == fewer[if j < i then j else j - 1];
      }
    }
    SameSlotsSameMap(fewer, m);
  }

  /** A gauge in which every slot has a name and no name appears twice. */
  ghost predicate Named(slots: seq<Slot>) {
    UniqueNames(slots) && AllNamed(slots)
  }

  lemma {:induction false} LiveNamed(slots: seq<Slot>, at: int)
    requires Named(slots)
    ensures Named(Live(slots, at))
    ensures Expiries(Live(slots, at)) == Unexpired(Expiries(slots), at)
    ensures |Live(slots, at)| == |Unexpired(Expiries(slots), at)|
  {
    LiveIsUnexpired(slots, at);
    LiveMembers(slots, at);
    NamedCount(Live(slots, at));
  }

  lemma {:induction false} MoveNamed(live: seq<Slot>, i: nat, expiresAt: int, h: string)
    requires Named(live) && i < |live| && live[i].holder == Some(h)
    ensures Named(live[i := Slot(expiresAt, Some(h))])
    ensures Expiries(live[i := Slot(expiresAt, Some(h))]) == Expiries(live)[h := expiresAt]
    ensures h in Expiries(live) && |live| - 1 == |Expiries(live) - {h}|
  {
    ReplaceMovesExpiry(live, i, expiresAt);
    ExpiryOf(live, i);
    NamedCount(live);
    var m := Expiries(live);
    assert m.Keys == (m - {h}).Keys + {h};
  }

  lemma {:induction false} AddNamed(live: seq<Slot>, expiresAt: int, h: string)
    requires Named(live) && Find(live, h).None?
    ensures Named(live + [Slot(expiresAt, Some(h))])
    ensures Expiries(live + [Slot(expiresAt, Some(h))]) == Expiries(live)[h := expiresAt]
    ensures h !in Expiries(live) && |live| == |Expiries(live) - {h}|
  {
    FindMeans(live, h);
    MembersInMap(live);
    NamedCount(live);
    AppendUnique(live, Slot(expiresAt, Some(h)));
    var more := live + [Slot(expiresAt, Some(h))];
    assert more[..|more| - 1] == live;
    assert Expiries(live) - {h} == Expiries(live);
  }

  lemma {:induction false} DropNamed(live: seq<Slot>, i: nat, h: string)
    requires Named(live) && i < |live| && live[i].holder == Some(h)
    ensures Named(live[..i] + live[i + 1..])
    ensures Expiries(live[..i] + live[i + 1..]) == Expiries(live) - {h}
  {
    RemoveDropsHolder(live, i);
    assert forall x :: x in live[..i] + live[i + 1..] ==> x in live;
  }

  lemma {:induction false} AcquireMeans(slots: seq<Slot>, at: int, expiresAt: int, h: string)
    requires Named(slots)
    ensures var (held, others) := AcquireSlots(slots, at, expiresAt, Some(h));
            var live := Unexpired(Expiries(slots), at);
            Named(held) && Expiries(held) == live[h := expiresAt] && others == |live - {h}|
  {
    LiveNamed(slots, at);
    var live := Live(slots, at);
    var mine := Find(live, h);
    if mine.Some? {
      MoveNamed(live, mine.value, expiresAt, h);
    } else {
      AddNamed(live, expiresAt, h);
    }
  }

  lemma {:induction false} RenewMeans(slots: seq<Slot>, at: int, expiresAt: int, h: string)
    requires Named(slots)
    ensures var held := RenewSlots(slots, at, expiresAt, h);
            var live := Unexpired(Expiries(slots), at);
            Named(held) && Expiries(held) == if h in live then live[h := expiresAt] else live
  {
    LiveNamed(slots, at);
    var live := Live(slots, at);
    var mine := Find(live, h);
    if mine.Some? {
      MoveNamed(live, mine.value, expiresAt, h);
    } else {
      AddNamed(live, expiresAt, h);
    }
  }

  lemma {:induction false} ReleaseMeans(slots: seq<Slot>, at: int, h: string)
    requires Named(slots)
    ensures var held := ReleaseSlots(slots, at, Some(h));
            Named(held) && Expiries(held) == Unexpired(Expiries(slots), at) - {h}
  {
    LiveNamed(slots, at);
    var live := Live(slots, at);
    var mine := Find(live, h);
    if mine.Some? {
      DropNamed(live, mine.value, h);
    } else {
      AddNamed(live, 0, h);
      assert Expiries(live) - {h} == Expiries(live);
    }
  }

  lemma {:induction false} InsertMembers(slots: seq<Slot>, x: Slot)
    ensures multiset(InsertByExpiry(slots, x)) == multiset(slots) + multiset{x}
    ensures forall y :: y in InsertByExpiry(slots, x) ==> y == x || y in slots
  {
    if slots != [] && slots[|slots| - 1].expiresAt > x.expiresAt {
      var front, last := slots[..|slots| - 1], slots[|slots| - 1];
      InsertMembers(front, x);
      assert slots == front + [last];
    }
  }

  lemma {:induction false} InsertSorts(slots: seq<Slot>, x: Slot)
    requires Sorted(slots)
    ensures Sorted(InsertByExpiry(slots, x))
  {
    if slots != [] && slots[|slots| - 1].expiresAt > x.expiresAt {
      var front, last := slots[..|slots| - 1], slots[|slots| - 1];
      InsertSorts(front, x);
      InsertMembers(front, x);
      var r := InsertByExpiry(front, x);
      forall k | 0 <= k < |r|
        ensures r[k].expiresAt <= last.expiresAt
      {
        assert r[k] == x || r[k] in front;
      }
    }
  }

  lemma {:induction false} SortSorts(slots: seq<Slot>)
    ensures Sorted(ByExpiry(slots)) && multiset(ByExpiry(slots)) == multiset(slots)
  {
    if slots != [] {
      var front, last := slots[..|slots| - 1], slots[|slots| - 1];
      SortSorts(front);
      InsertSorts(ByExpiry(front), last);
      InsertMembers(ByExpiry(front), last);
      MultisetLast(front, last);
      assert slots == front + [last];
    }
  }

  lemma {:induction false} MultisetLast(front: seq<Slot>, last: Slot)
    ensures multiset(front + [last]) == multiset(front) + multiset{last}
  {
  }

  lemma {:induction false} NearestFirst(live: seq<Slot>)
    requires live != []
    ensures |ByExpiry(live)| == |live|
    ensures ByExpiry(live)[0] in live
    ensures multiset(ByExpiry(live)[1..]) + multiset{ByExpiry(live)[0]} == multiset(live)
    ensures forall y :: y in live ==> ByExpiry(live)[0].expiresAt <= y.expiresAt
  {
    SortSorts(live);
    var sorted := ByExpiry(live);
    assert |sorted| == |multiset(sorted)| == |live|;
    assert sorted == [sorted[0]] + sorted[1..];
    assert sorted[0] in multiset(live);
    forall y | y in live
      ensures sorted[0].expiresAt <= y.expiresAt
    {
      assert y in multiset(sorted);
      var i :| 0 <= i < |sorted| && sorted[i] == y;
    }
  }

  /** The first slot, in the order they were taken, of those that expire soonest. */
  predicate IsNearest(live: seq<Slot>, k: nat) {
    && k < |live|
    && forall j :: 0 <= j < |live| ==>
         live[k].expiresAt <= live[j].expiresAt && (j < k ==> live[k].expiresAt < live[j].expiresAt)
  }

  function Nearest(live: seq<Slot>): (k: nat)
    requires live != []
    ensures IsNearest(live, k)
  {
    var front, last := live[..|live| - 1], live[|live| - 1];
    if front == [] then 0
    else
      var k := Nearest(front);
      if last.expiresAt < front[k].expiresAt then |front| else k
  }

  lemma {:induction false} InsertHead(slots: seq<Slot>, x: Slot)
    requires Sorted(slots)
    ensures InsertByExpiry(slots, x) != []
    ensures InsertByExpiry(slots, x)[0]
            == if slots == [] || x.expiresAt < slots[0].expiresAt then x else slots[0]
  {
    if slots != [] && slots[|slots| - 1].expiresAt > x.expiresAt {
      InsertHead(slots[..|slots| - 1], x);
    }
  }

  /** The stable sort puts exactly that slot first. */
  lemma {:induction false} SortHead(live: seq<Slot>)
    requires live != []
    ensures ByExpiry(live) != [] && ByExpiry(live)[0] == live[Nearest(live)]
  {
    var front, last := live[..|live| - 1], live[|live| - 1];
    SortSorts(front);
    InsertHead(ByExpiry(front), last);
    if front != [] {
      SortHead(front);
    }
  }

  /** An unnamed release drops exactly the first live slot nearest its expiry, and never goes below zero. */
  lemma {:induction false} AnonymousReleaseDropsNearest(slots: seq<Slot>, at: int)
    ensures Live(slots, at) == [] ==> ReleaseSlots(slots, at, None) == []
    ensures Live(slots, at) != [] ==>
      var dropped := Live(slots, at)[Nearest(Live(slots, at))];
      multiset(ReleaseSlots(slots, at, None)) + multiset{dropped} == multiset(Live(slots, at))
  {
    var live := Live(slots, at);
    if live != [] {
      NearestFirst(live);
      SortHead(live);
      assert ReleaseSlots(slots, at, None) == ByExpiry(live)[1..];
    }
  }

  /** How many slots carry a name. */
  function NamedBy(slots: seq<Slot>, h: string): nat {
    if slots == [] then 0
    else NamedBy(slots[..|slots| - 1], h) + if slots[|slots| - 1].holder == Some(h) then 1 else 0
  }

  lemma {:induction false} NamedByInsert(slots: seq<Slot>, x: Slot, h: string)
    ensures NamedBy(InsertByExpiry(slots, x), h) == NamedBy(slots, h) + if x.holder == Some(h) then 1 else 0
  {
    if slots == [] || slots[|slots| - 1].expiresAt <= x.expiresAt {
      NamedByLast(slots, x, h);
    } else {
      NamedByInsert(slots[..|slots| - 1], x, h);
      NamedByLast(InsertByExpiry(slots[..|slots| - 1], x), slots[|slots| - 1], h);
    }
  }

  lemma {:induction false} NamedByLast(slots: seq<Slot>, x: Slot, h: string)
    ensures NamedBy(slots + [x], h) == NamedBy(slots, h) + if x.holder == Some(h) then 1 else 0
  {
    assert (slots + [x])[..|slots|] == slots;
  }

  lemma {:induction false} NamedBySort(slots: seq<Slot>, h: string)
    ensures NamedBy(ByExpiry(slots), h) == NamedBy(slots, h)
  {
    if slots != [] {
      NamedBySort(slots[..|slots| - 1], h);
      NamedByInsert(ByExpiry(slots[..|slots| - 1]), slots[|slots| - 1], h);
    }
  }

  lemma {:induction false} NamedByTail(slots: seq<Slot>, h: string)
    requires slots != []
    ensures NamedBy(slots, h) == NamedBy(slots[1..], h) + if slots[0].holder == Some(h) then 1 else 0
  {
    if |slots| > 1 {
      NamedByTail(slots[..|slots| - 1], h);
      assert slots[..|slots| - 1][1..] == slots[1..][..|slots| - 2];
    } else {
      assert slots[1..] == [] && slots[..0] == [];
    }
  }

  lemma {:induction false} NamedByMeans(slots: seq<Slot>, h: string)
    ensures NamedBy(slots, h) > 0 <==> HasSlot(slots, h)
    ensures UniqueNames(slots) ==> NamedBy(slots, h) <= 1
  {
    if slots != [] {
      var front := slots[..|slots| - 1];
      NamedByMeans(front, h);
      assert slots[|slots| - 1].holder == Some(h) && UniqueNames(slots) ==>
          forall k :: 0 <= k < |front| ==> front[k].holder != Some(h);
      if exists k :: 0 <= k < |front| && front[k].holder == Some(h) {
        var k :| 0 <= k < |front| && front[k].holder == Some(h);
        assert slots[k].holder == Some(h);
      }
    }
  }

  /** A live slot with this name is on the gauge. */
  predicate HasSlot(slots: seq<Slot>, h: string) {
    exists k :: 0 <= k < |slots| && slots[k].holder == Some(h)
  }

  /**
   Exactly when an unnamed release takes a named holder's slot away: when that slot is the first of
   those that expire soonest. So no name is lost if and only if that first slot has none.
   */
  lemma {:induction false} AnonymousReleaseSparesName(slots: seq<Slot>, at: int, h: string)
    requires UniqueNames(slots) && HasSlot(Live(slots, at), h)
    ensures Live(slots, at) != []
    ensures !HasSlot(ReleaseSlots(slots, at, None), h) <==> Live(slots, at)[Nearest(Live(slots, at))].holder == Some(h)
  {
    var live := Live(slots, at);
    LiveKeepsNames(slots, at);
    SortHead(live);
    var sorted := ByExpiry(live);
    NamedBySort(live, h);
    NamedByTail(sorted, h);
    NamedByMeans(live, h);
    NamedByMeans(sorted[1..], h);
    assert ReleaseSlots(slots, at, None) == sorted[1..];
  }

  /** So an unnamed release on a shared gauge can take a named holder's slot away. */
  lemma {:induction false} AnonymousReleaseMayDropNamed()
    ensures var slots := [Slot(5, Some("a")), Slot(9, None)];
            ReleaseSlots(slots, 0, None) == [Slot(9, None)]
  {
    var a, b := Slot(5, Some("a")), Slot(9, None);
    var slots := [a, b];
    assert slots[..1] == [a] && [a][..0] == [];
    assert Live([a], 0) == Live([], 0) + [a] == [a];
    assert Live(slots, 0) == [a] + [b] == slots;
    assert ByExpiry([a]) == InsertByExpiry([], a) == [a];
    assert ByExpiry(slots) == InsertByExpiry([a], b) == slots;
  }

  // ---------------------------------------------------------------- runs

  datatype Op = Acquire(holder: string, ttl: int) | Renew(holder: string, ttl: int) | Release(holder: string)

  /** An operation with the two clock readings it makes. */
  datatype Timed = Timed(op: Op, at: int, stamp: int)

  function Perform(slots: seq<Slot>, o: Timed): seq<Slot> {
    match o.op
    case Acquire(h, ttl) => AcquireSlots(slots, o.at, o.stamp + ttl, Some(h)).0
    case Renew(h, ttl) => RenewSlots(slots, o.at, o.stamp + ttl, h)
    case Release(h) => ReleaseSlots(slots, o.at, Some(h))
  }

  function Replay(ops: seq<Timed>): seq<Slot> {
    if ops == [] then [] else Perform(Replay(ops[..|ops| - 1]), ops[|ops| - 1])
  }

  predicate ClockMonotone(ops: seq<Timed>, now: int) {
    && (forall i :: 0 <= i < |ops| ==> ops[i].at <= ops[i].stamp <= now)
    && (forall i, j :: 0 <= i < j < |ops| ==> ops[i].stamp <= ops[j].at)
  }

  /**
   When a holder's slot lapses, read off its own operations alone: its last acquire, moved
   by every renewal that came before the slot lapsed, ended by a release.
   */
  ghost function LapsesAt(ops: seq<Timed>, h: string): Option<int> {
    if ops == [] then None
    else
      var o := ops[|ops| - 1];
      var earlier := LapsesAt(ops[..|ops| - 1], h);
      if o.op.holder != h then earlier
      else
        match o.op
        case Acquire(_, ttl) => Some(o.stamp + ttl)
        case Renew(_, ttl) => if earlier.Some? && earlier.value > o.at then Some(o.stamp + ttl) else earlier
        case Release(_) => None
  }

  ghost predicate Holds(ops: seq<Timed>, h: string, now: int) {
    LapsesAt(ops, h).Some? && LapsesAt(ops, h).value > now
  }

  ghost function HoldersAt(ops: seq<Timed>, now: int): set<string> {
    set o | o in ops && Holds(ops, o.op.holder, now) :: o.op.holder
  }

  lemma {:induction false} OnlyMentionedHold(ops: seq<Timed>, h: string, now: int)
    requires Holds(ops, h, now)
    ensures h in HoldersAt(ops, now)
  {
    var i := MentionOf(ops, h);
    assert ops[i] in ops;
  }

  lemma {:induction false} MentionOf(ops: seq<Timed>, h: string) returns (i: nat)
    requires LapsesAt(ops, h).Some?
    ensures i < |ops| && ops[i].op.holder == h
  {
    if ops[|ops| - 1].op.holder == h {
      i := |ops| - 1;
    } else {
      i := MentionOf(ops[..|ops| - 1], h);
    }
  }

  /** The unexpired part of a map is what the holders' own histories say. */
  ghost predicate Matches(m: map<string, int>, ops: seq<Timed>, now: int) {
    forall h :: (h in Unexpired(m, now) <==> Holds(ops, h, now))
                && (Holds(ops, h, now) ==> m[h] == LapsesAt(ops, h).value)
  }

  /** An operation as it acts on the holder-to-expiry map. */
  ghost function PerformOnMap(m: map<string, int>, o: Timed): map<string, int> {
    var live := Unexpired(m, o.at);
    match o.op
    case Acquire(h, ttl) => live[h := o.stamp + ttl]
    case Renew(h, ttl) => if h in live then live[h := o.stamp + ttl] else live
    case Release(h) => live - {h}
  }

  lemma {:induction false} PerformRefines(slots: seq<Slot>, o: Timed)
    requires Named(slots)
    ensures Named(Perform(slots, o)) && Expiries(Perform(slots, o)) == PerformOnMap(Expiries(slots), o)
  {
    match o.op
    case Acquire(h, ttl) => AcquireMeans(slots, o.at, o.stamp + ttl, h);
    case Renew(h, ttl) => RenewMeans(slots, o.at, o.stamp + ttl, h);
    case Release(h) => ReleaseMeans(slots, o.at, h);
  }

  lemma {:induction false} MapStepMatches(m: map<string, int>, ops: seq<Timed>, now: int)
    requires ops != [] && ClockMonotone(ops, now)
    requires Matches(m, ops[..|ops| - 1], ops[|ops| - 1].at)
    ensures Matches(PerformOnMap(m, ops[|ops| - 1]), ops, now)
  {
    var before, o := ops[..|ops| - 1], ops[|ops| - 1];
    var m' := PerformOnMap(m, o);
    forall h
      ensures h in Unexpired(m', now) <==> Holds(ops, h, now)
      ensures Holds(ops, h, now) ==> m'[h] == LapsesAt(ops, h).value
    {
      assert h in Unexpired(m, o.at) <==> Holds(before, h, o.at);
    }
  }

  lemma {:induction false} ReplayMatches(ops: seq<Timed>, now: int)
    requires ClockMonotone(ops, now)
    ensures Named(Replay(ops)) && Matches(Expiries(Replay(ops)), ops, now)
  {
    if ops != [] {
      var before, o := ops[..|ops| - 1], ops[|ops| - 1];
      ReplayMatches(before, o.at);
      PerformRefines(Replay(before), o);
      MapStepMatches(Expiries(Replay(before)), ops, now);
    }
  }

  lemma {:induction false} HoldersAreKeys(ops: seq<Timed>, now: int)
    requires ClockMonotone(ops, now)
    ensures Unexpired(Expiries(Replay(ops)), now).Keys == HoldersAt(ops, now)
  {
    ReplayMatches(ops, now);
    forall h | h in Unexpired(Expiries(Replay(ops)), now)
      ensures h in HoldersAt(ops, now)
    {
      OnlyMentionedHold(ops, h, now);
    }
  }

  /**
   The gauge refines the holders' own histories. After any run of named operations, `read`
   counts exactly the holders whose slot has not lapsed, an acquire answers how many others
   there are, and both are independent of how the other holders' operations interleaved.
   */
  lemma {:induction false} GaugeCountsHolders(ops: seq<Timed>, now: int, h: string, expiresAt: int)
    requires ClockMonotone(ops, now)
    ensures |Live(Replay(ops), now)| == |HoldersAt(ops, now)|
    ensures AcquireSlots(Replay(ops), now, expiresAt, Some(h)).1 == |HoldersAt(ops, now) - {h}|
  {
    ReplayMatches(ops, now);
    HoldersAreKeys(ops, now);
    LiveNamed(Replay(ops), now);
    AcquireMeans(Replay(ops), now, expiresAt, h);
    var live := Unexpired(Expiries(Replay(ops)), now);
    assert (live - {h}).Keys == HoldersAt(ops, now) - {h};
    assert |live| == |live.Keys| && |live - {h}| == |(live - {h}).Keys|;
  }

  // ---------------------------------------------------------------- a ceiling judged by the callers

  /** Whether `h` kept its slot: its last acquire was told fewer than `limit`, and it has not let go. */
  ghost predicate Keeps(ops: seq<Timed>, limit: nat, h: string) {
    ops != [] &&
    var before, o := ops[..|ops| - 1], ops[|ops| - 1];
    if o.op.holder != h || o.op.Renew? then Keeps(before, limit, h)
    else o.op.Acquire? && AcquireSlots(Replay(before), o.at, o.stamp + o.op.ttl, Some(h)).1 < limit
  }

  ghost function Keepers(ops: seq<Timed>, limit: nat, now: int): set<string> {
    set h | h in HoldersAt(ops, now) && Keeps(ops, limit, h)
  }

  lemma {:induction false} SubsetSize<T>(a: set<T>, b: set<T>)
    requires a <= b
    ensures |a| <= |b|
  {
    assert b == a + (b - a);
  }

  /**
   The ceiling holds whatever the interleaving: callers who keep a slot only when told fewer
   than `limit` others hold one never hold more than `limit` live slots between them, even
   while callers that were refused have yet to release theirs.
   */
  lemma {:induction false} CeilingHolds(ops: seq<Timed>, limit: nat, now: int)
    requires ClockMonotone(ops, now)
    ensures |Keepers(ops, limit, now)| <= limit
  {
    if ops == [] {
      assert Keepers(ops, limit, now) == {};
    } else {
      var before, o := ops[..|ops| - 1], ops[|ops| - 1];
      var h := o.op.holder;
      CeilingHolds(before, limit, o.at);
      forall k | k in HoldersAt(ops, now) && (k != h || !o.op.Acquire?)
        ensures k in HoldersAt(before, o.at)
      {
        OnlyMentionedHold(before, k, o.at);
      }
      if o.op.Acquire? && Keeps(ops, limit, h) {
        GaugeCountsHolders(before, o.at, h, o.stamp + o.op.ttl);
        SubsetSize(Keepers(ops, limit, now), (HoldersAt(before, o.at) - {h}) + {h});
      } else {
        SubsetSize(Keepers(ops, limit, now), Keepers(before, limit, o.at));
      }
    }
  }

  /** Once every refused caller has let go, the gauge itself reads at most `limit`. */
  lemma {:induction false} CeilingIsRead(ops: seq<Timed>, limit: nat, now: int)
    requires ClockMonotone(ops, now)
    requires forall h :: h in HoldersAt(ops, now) ==> Keeps(ops, limit, h)
    ensures |Live(Replay(ops), now)| <= limit
  {
    CeilingHolds(ops, limit, now);
    GaugeCountsHolders(ops, now, "", 0);
    assert Keepers(ops, limit, now) == HoldersAt(ops, now);
  }
}
