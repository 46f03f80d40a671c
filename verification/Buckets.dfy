/**
 Time-bucketed counters for the long rate-limit windows.

 A key holds one `Counts` per bucket start. Times are integral milliseconds; JavaScript's
 `Math.floor(at / grain) * grain` is Dafny's floor division for a positive grain.
 */
module Buckets {
  import opened Collections
  import opened Wrappers

  datatype Counts = Counts(requests: int, tokens: int, costUsd: real)

  const ZERO: Counts := Counts(0, 0, 0.0)

  function Plus(a: Counts, b: Counts): Counts {
    Counts(a.requests + b.requests, a.tokens + b.tokens, a.costUsd + b.costUsd)
  }

  predicate AtMost(a: Counts, b: Counts) {
    a.requests <= b.requests && a.tokens <= b.tokens && a.costUsd <= b.costUsd
  }

  type Held = map<int, Counts>

  function BucketOf(grain: int, at: int): int
    requires grain > 0
  {
    (at / grain) * grain
  }

  function Oldest(grain: int, window: int, now: int): int
    requires grain > 0
  {
    BucketOf(grain, now - window)
  }

  function Trim(held: Held, oldest: int): Held {
    map b | b in held && b >= oldest :: held[b]
  }

  function AddTo(held: Held, b: int, delta: Counts): Held {
    held[b := Plus(if b in held then held[b] else ZERO, delta)]
  }

  function SeedRows(grain: int, rows: seq<(int, Counts)>): Held
    requires grain > 0
  {
    if rows == [] then map[]
    else
      var (start, counts) := rows[|rows| - 1];
      SeedRows(grain, rows[..|rows| - 1])[BucketOf(grain, start) := counts]
  }

  /** The sum over every bucket; which bucket is taken first does not matter (`TotalSplit`). */
  ghost function Total(held: Held): Counts
    decreases |held|
  {
    if held == map[] then ZERO
    else Plus(held[AnyKey(held)], Total(held - {AnyKey(held)}))
  }

  lemma {:induction false} TotalSplit(held: Held, b: int)
    requires b in held
    ensures Total(held) == Plus(held[b], Total(held - {b}))
    decreases |held|
  {
    var first := AnyKey(held);
    if first != b {
      TotalSplit(held - {first}, b);
      TotalSplit(held - {b}, first);
      assert (held - {first}) - {b} == (held - {b}) - {first};
    }
  }

  lemma {:induction false} TotalSet(held: Held, b: int, counts: Counts)
    ensures Total(held[b := counts]) == Plus(counts, Total(held - {b}))
  {
    TotalSplit(held[b := counts], b);
    assert held[b := counts] - {b} == held - {b};
  }

  // ---------------------------------------------------------------- the coordinator's buckets

  /** The loop of `trimBuckets`, over one key's buckets. */
  method DropBefore(was: Held, oldest: int) returns (held: Held)
    ensures held == Trim(was, oldest)
  {
    held := was;
    var todo := was.Keys;
    while todo != {}
      invariant held == map b | b in was && (b in todo || b >= oldest) :: was[b]
      decreases todo
    {
      var start := Any(todo);
      todo := todo - {start};
      if start < oldest {
        held := held - {start};
      }
    }
  }

  /** The loop of `sum`, over one key's buckets. */
  method AddUp(held: Held) returns (total: Counts)
    ensures total == Total(held)
  {
    total := ZERO;
    var rest := held;
    while rest != map[]
      invariant Plus(total, Total(rest)) == Total(held)
      decreases |rest|
    {
      assert rest.Keys != {};
      var b := Any(rest.Keys);
      TotalSplit(rest, b);
      total := Plus(total, rest[b]);
      rest := rest - {b};
    }
  }

  class BucketTable {
    var buckets: map<string, Held>

    constructor ()
      ensures buckets == map[]
    {
      buckets := map[];
    }

    method TrimBuckets(key: string, grain: int, window: int, now: int)
      requires grain > 0
      modifies this
      ensures key !in old(buckets) ==> buckets == old(buckets)
      ensures key in old(buckets) ==>
        buckets == old(buckets)[key := Trim(old(buckets)[key], Oldest(grain, window, now))]
    {
      if key !in buckets {
        return;
      }
      var held := DropBefore(buckets[key], Oldest(grain, window, now));
      buckets := buckets[key := held];
    }

    method Add(key: string, grain: int, window: int, now: int, delta: Counts)
      requires grain > 0
      modifies this
      ensures key !in old(buckets) ==> buckets == old(buckets)
      ensures key in old(buckets) ==>
        var trimmed := Trim(old(buckets)[key], Oldest(grain, window, now));
        buckets == old(buckets)[key := AddTo(trimmed, BucketOf(grain, now), delta)]
    {
      TrimBuckets(key, grain, window, now);
      if key in buckets {
        buckets := buckets[key := AddTo(buckets[key], BucketOf(grain, now), delta)];
      }
    }

    /** `None` stands for the source's null: a key nothing has seeded. */
    method Sum(key: string, grain: int, window: int, now: int) returns (sum: Option<Counts>)
      requires grain > 0
      modifies this
      ensures key !in old(buckets) ==> sum == None && buckets == old(buckets)
      ensures key in old(buckets) ==>
        var trimmed := Trim(old(buckets)[key], Oldest(grain, window, now));
        sum == Some(Total(trimmed)) && buckets == old(buckets)[key := trimmed]
    {
      TrimBuckets(key, grain, window, now);
      if key !in buckets {
        return None;
      }
      var total := AddUp(buckets[key]);
      sum := Some(total);
    }

    method Seed(key: string, grain: int, window: int, now: int, rows: seq<(int, Counts)>)
      requires grain > 0
      modifies this
      ensures buckets == old(buckets)[key := Trim(SeedRows(grain, rows), Oldest(grain, window, now))]
    {
      var held: Held := map[];
      for i := 0 to |rows|
        invariant held == SeedRows(grain, rows[..i])
      {
        var (start, counts) := rows[i];
        held := held[BucketOf(grain, start) := counts];
        assert rows[..i + 1][..i] == rows[..i];
      }
      assert rows[..|rows|] == rows;
      buckets := buckets[key := held];
      TrimBuckets(key, grain, window, now);
    }
  }

  // ---------------------------------------------------------------- floor arithmetic

  lemma {:induction false} BucketBounds(grain: int, at: int)
    requires grain > 0
    ensures BucketOf(grain, at) <= at < BucketOf(grain, at) + grain
  {
  }

  /** A bucket starts at the one multiple of the grain that is not after the instant and less than a grain before it. */
  lemma {:induction false} BucketIsMultiple(grain: int, at: int)
    requires grain > 0
    ensures BucketOf(grain, at) % grain == 0 && BucketOf(grain, at) <= at < BucketOf(grain, at) + grain
  {
    BucketBounds(grain, at);
    MultipleDivides(at / grain, grain);
  }

  lemma {:induction false} MultipleDivides(q: int, grain: int)
    requires grain > 0
    ensures (q * grain) % grain == 0
  {
    var r := (q * grain) % grain;
    var d := q - (q * grain) / grain;
    assert r == d * grain;
    assert d <= 0 ==> d * grain <= 0;
    assert d >= 1 ==> d * grain >= grain;
  }

  lemma {:induction false} BucketMonotone(grain: int, a: int, b: int)
    requires grain > 0 && a <= b
    ensures BucketOf(grain, a) <= BucketOf(grain, b)
  {
    var qa, qb := a / grain, b / grain;
    if qa > qb {
      assert qa * grain >= (qb + 1) * grain;
      BucketBounds(grain, a);
      BucketBounds(grain, b);
    } else {
      assert qa * grain <= qb * grain;
    }
  }

  // ---------------------------------------------------------------- runs of one key

  datatype Event =
    | Seeded(at: int, rows: seq<(int, Counts)>)
    | Added(at: int, delta: Counts)
    | Summed(at: int)

  /** What the key holds after a run; `None` while nothing has seeded it. */
  function Play(grain: int, window: int, events: seq<Event>): Option<Held>
    requires grain > 0
  {
    if events == [] then None
    else
      var e := events[|events| - 1];
      var held := Play(grain, window, events[..|events| - 1]);
      var oldest := Oldest(grain, window, e.at);
      match e
      case Seeded(_, rows) => Some(Trim(SeedRows(grain, rows), oldest))
      case Added(at, delta) =>
        if held.None? then None else Some(AddTo(Trim(held.value, oldest), BucketOf(grain, at), delta))
      case Summed(_) => if held.None? then None else Some(Trim(held.value, oldest))
  }

  /** Nothing happened after the instant of the question; the clock may have gone back in between. */
  predicate NoneLater(events: seq<Event>, now: int) {
    forall i :: 0 <= i < |events| ==> events[i].at <= now
  }

  /** The rows of a seed that take effect: the last one of each bucket not in `taken`. */
  ghost function Effective(grain: int, rows: seq<(int, Counts)>, taken: set<int>): seq<(int, Counts)>
    requires grain > 0
  {
    if rows == [] then []
    else
      var b := BucketOf(grain, rows[|rows| - 1].0);
      if b in taken then Effective(grain, rows[..|rows| - 1], taken)
      else Effective(grain, rows[..|rows| - 1], taken + {b}) + [rows[|rows| - 1]]
  }

  /** Everything recorded since the last seed, each amount with its own instant. */
  ghost function Recorded(grain: int, events: seq<Event>): seq<(int, Counts)>
    requires grain > 0
  {
    if events == [] then []
    else
      match events[|events| - 1]
      case Seeded(_, rows) => Effective(grain, rows, {})
      case Added(at, delta) => Recorded(grain, events[..|events| - 1]) + [(at, delta)]
      case Summed(_) => Recorded(grain, events[..|events| - 1])
  }

  /** The true total of what was recorded at or after an instant. */
  ghost function Since(recorded: seq<(int, Counts)>, from: int): Counts {
    if recorded == [] then ZERO
    else
      var (at, amount) := recorded[|recorded| - 1];
      var rest := Since(recorded[..|recorded| - 1], from);
      if at >= from then Plus(rest, amount) else rest
  }

  /** The same at bucket resolution: what fell in a bucket starting at or after an instant. */
  ghost function SinceBucket(grain: int, recorded: seq<(int, Counts)>, oldest: int): Counts
    requires grain > 0
  {
    if recorded == [] then ZERO
    else
      var (at, amount) := recorded[|recorded| - 1];
      var rest := SinceBucket(grain, recorded[..|recorded| - 1], oldest);
      if BucketOf(grain, at) >= oldest then Plus(rest, amount) else rest
  }

  lemma {:induction false} TotalAdd(held: Held, b: int, delta: Counts)
    ensures Total(AddTo(held, b, delta)) == Plus(Total(held), delta)
  {
    TotalSet(held, b, AddTo(held, b, delta)[b]);
    if b in held {
      TotalSplit(held, b);
    } else {
      assert held - {b} == held;
    }
  }

  lemma {:induction false} TrimTrim(held: Held, early: int, late: int)
    requires early <= late
    ensures Trim(Trim(held, early), late) == Trim(held, late)
  {
  }

  lemma {:induction false} TrimAdd(held: Held, b: int, delta: Counts, oldest: int)
    ensures Trim(AddTo(held, b, delta), oldest) ==
            if b >= oldest then AddTo(Trim(held, oldest), b, delta) else Trim(held, oldest)
  {
  }

  lemma {:induction false} TrimSet(rest: Held, b: int, counts: Counts, oldest: int)
    requires b !in rest
    ensures Total(Trim(rest[b := counts], oldest)) ==
            if b >= oldest then Plus(Total(Trim(rest, oldest)), counts) else Total(Trim(rest, oldest))
  {
    if b >= oldest {
      assert Trim(rest[b := counts], oldest) == Trim(rest, oldest)[b := counts];
      TotalSet(Trim(rest, oldest), b, counts);
      assert Trim(rest, oldest) - {b} == Trim(rest, oldest);
    } else {
      assert Trim(rest[b := counts], oldest) == Trim(rest, oldest);
    }
  }

  lemma {:induction false} SeedTotal(grain: int, rows: seq<(int, Counts)>, taken: set<int>, oldest: int)
    requires grain > 0
    ensures Total(Trim(SeedRows(grain, rows) - taken, oldest)) ==
            SinceBucket(grain, Effective(grain, rows, taken), oldest)
  {
    if rows == [] {
      assert Trim(SeedRows(grain, rows) - taken, oldest) == map[];
    } else {
      var before := rows[..|rows| - 1];
      var (start, counts) := rows[|rows| - 1];
      var b := BucketOf(grain, start);
      var held := SeedRows(grain, rows) - taken;
      if b in taken {
        SeedTotal(grain, before, taken, oldest);
        assert held == SeedRows(grain, before) - taken;
      } else {
        SeedTotal(grain, before, taken + {b}, oldest);
        var rest := SeedRows(grain, before) - (taken + {b});
        assert held == rest[b := counts];
        var effective := Effective(grain, before, taken + {b});
        assert (effective + [(start, counts)])[..|effective|] == effective;
        TrimSet(rest, b, counts, oldest);
      }
    }
  }

  lemma {:induction false} SumIsFold(grain: int, window: int, events: seq<Event>, now: int)
    requires grain > 0 && NoneLater(events, now)
    requires Play(grain, window, events).Some?
    ensures Total(Trim(Play(grain, window, events).value, Oldest(grain, window, now))) ==
            SinceBucket(grain, Recorded(grain, events), Oldest(grain, window, now))
  {
    var before, e := events[..|events| - 1], events[|events| - 1];
    var oldest, then_ := Oldest(grain, window, now), Oldest(grain, window, e.at);
    BucketMonotone(grain, e.at - window, now - window);
    match e
    case Seeded(_, rows) =>
      var held := SeedRows(grain, rows);
      TrimTrim(held, then_, oldest);
      assert held - {} == held;
      SeedTotal(grain, rows, {}, oldest);
    case Added(at, delta) =>
      SumIsFold(grain, window, before, now);
      var held := Play(grain, window, before).value;
      TrimTrim(held, then_, oldest);
      TrimAdd(Trim(held, then_), BucketOf(grain, at), delta, oldest);
      TotalAdd(Trim(held, oldest), BucketOf(grain, at), delta);
      var recorded := Recorded(grain, before);
      assert (recorded + [(at, delta)])[..|recorded|] == recorded;
    case Summed(_) =>
      SumIsFold(grain, window, before, now);
      TrimTrim(Play(grain, window, before).value, then_, oldest);
  }

  // ---------------------------------------------------------------- the numbers themselves

  ghost function RequestsOf(amounts: seq<(int, Counts)>): int {
    if amounts == [] then 0 else RequestsOf(amounts[..|amounts| - 1]) + amounts[|amounts| - 1].1.requests
  }

  ghost function TokensOf(amounts: seq<(int, Counts)>): int {
    if amounts == [] then 0 else TokensOf(amounts[..|amounts| - 1]) + amounts[|amounts| - 1].1.tokens
  }

  ghost function CostOf(amounts: seq<(int, Counts)>): real {
    if amounts == [] then 0.0 else CostOf(amounts[..|amounts| - 1]) + amounts[|amounts| - 1].1.costUsd
  }

  /** The amounts at or after an instant. */
  ghost function FromInstant(amounts: seq<(int, Counts)>, from: int): seq<(int, Counts)> {
    if amounts == [] then []
    else
      var rest, last := FromInstant(amounts[..|amounts| - 1], from), amounts[|amounts| - 1];
      if last.0 >= from then rest + [last] else rest
  }

  /** The amounts in a bucket that starts at or after an instant. */
  ghost function FromBucket(grain: int, amounts: seq<(int, Counts)>, oldest: int): seq<(int, Counts)>
    requires grain > 0
  {
    if amounts == [] then []
    else
      var rest, last := FromBucket(grain, amounts[..|amounts| - 1], oldest), amounts[|amounts| - 1];
      if BucketOf(grain, last.0) >= oldest then rest + [last] else rest
  }

  /** Requests, tokens and cost are each the sum of those of the amounts. */
  ghost predicate AddsUpTo(amounts: seq<(int, Counts)>, total: Counts) {
    && total.requests == RequestsOf(amounts) && total.tokens == TokensOf(amounts)
    && total.costUsd == CostOf(amounts)
  }

  lemma {:induction false} AddsUpMore(amounts: seq<(int, Counts)>, x: (int, Counts), total: Counts)
    requires AddsUpTo(amounts, total)
    ensures AddsUpTo(amounts + [x], Plus(total, x.1))
  {
    assert (amounts + [x])[..|amounts|] == amounts;
  }

  lemma {:induction false} SinceAddsUp(amounts: seq<(int, Counts)>, from: int)
    ensures AddsUpTo(FromInstant(amounts, from), Since(amounts, from))
  {
    if amounts != [] {
      var front, last := amounts[..|amounts| - 1], amounts[|amounts| - 1];
      SinceAddsUp(front, from);
      AddsUpMore(FromInstant(front, from), last, Since(front, from));
    }
  }

  lemma {:induction false} SinceBucketAddsUp(grain: int, amounts: seq<(int, Counts)>, oldest: int)
    requires grain > 0
    ensures AddsUpTo(FromBucket(grain, amounts, oldest), SinceBucket(grain, amounts, oldest))
  {
    if amounts != [] {
      var front, last := amounts[..|amounts| - 1], amounts[|amounts| - 1];
      SinceBucketAddsUp(grain, front, oldest);
      AddsUpMore(FromBucket(grain, front, oldest), last, SinceBucket(grain, front, oldest));
    }
  }

  /** The sum is exactly what was recorded in buckets the window still reaches, number by number. */
  lemma {:induction false} SumIsBucketTotal(grain: int, window: int, events: seq<Event>, now: int)
    requires grain > 0 && NoneLater(events, now)
    requires Play(grain, window, events).Some?
    ensures var sum := Total(Trim(Play(grain, window, events).value, Oldest(grain, window, now)));
            var counted := FromBucket(grain, Recorded(grain, events), BucketOf(grain, now - window));
            && sum.requests == RequestsOf(counted) && sum.tokens == TokensOf(counted)
            && sum.costUsd == CostOf(counted)
  {
    SumIsFold(grain, window, events, now);
    SinceBucketAddsUp(grain, Recorded(grain, events), BucketOf(grain, now - window));
  }

  ghost predicate NonNegative(recorded: seq<(int, Counts)>) {
    forall r :: r in recorded ==> 0 <= r.1.requests && 0 <= r.1.tokens && 0.0 <= r.1.costUsd
  }

  lemma {:induction false} BucketsBracketWindow(grain: int, recorded: seq<(int, Counts)>, from: int)
    requires grain > 0 && NonNegative(recorded)
    ensures AtMost(Since(recorded, from), SinceBucket(grain, recorded, BucketOf(grain, from)))
    ensures AtMost(SinceBucket(grain, recorded, BucketOf(grain, from)), Since(recorded, from - grain + 1))
  {
    if recorded != [] {
      var (at, amount) := recorded[|recorded| - 1];
      assert recorded[|recorded| - 1] in recorded;
      assert forall r :: r in recorded[..|recorded| - 1] ==> r in recorded;
      BucketsBracketWindow(grain, recorded[..|recorded| - 1], from);
      BucketBounds(grain, at);
      BucketBounds(grain, from);
      if at >= from {
        BucketMonotone(grain, from, at);
      }
    }
  }

  // ---------------------------------------------------------------- the traffic behind a row

  ghost function SumOf(amounts: seq<(int, Counts)>): Counts {
    if amounts == [] then ZERO else Plus(SumOf(amounts[..|amounts| - 1]), amounts[|amounts| - 1].1)
  }

  /** Amounts that one recorded row stands for: of its bucket, and adding up to it. */
  ghost predicate Behind(grain: int, row: (int, Counts), amounts: seq<(int, Counts)>)
    requires grain > 0
  {
    AddsUpTo(amounts, row.1) && InBucket(grain, BucketOf(grain, row.0), amounts)
  }

  ghost predicate InBucket(grain: int, bucket: int, amounts: seq<(int, Counts)>)
    requires grain > 0
  {
    forall i :: 0 <= i < |amounts| ==> BucketOf(grain, amounts[i].0) == bucket
  }

  /** The traffic itself, each amount at its own instant: what a seed row sums up is spread over its bucket. */
  ghost predicate Explains(grain: int, recorded: seq<(int, Counts)>, behind: seq<seq<(int, Counts)>>)
    requires grain > 0
  {
    |behind| == |recorded| && forall i :: 0 <= i < |recorded| ==> Behind(grain, recorded[i], behind[i])
  }

  ghost function Flatten(behind: seq<seq<(int, Counts)>>): seq<(int, Counts)> {
    if behind == [] then [] else Flatten(behind[..|behind| - 1]) + behind[|behind| - 1]
  }

  lemma {:induction false} SinceBucketLast(grain: int, a: seq<(int, Counts)>, x: (int, Counts), oldest: int)
    requires grain > 0
    ensures SinceBucket(grain, a + [x], oldest)
            == if BucketOf(grain, x.0) >= oldest then Plus(SinceBucket(grain, a, oldest), x.1)
               else SinceBucket(grain, a, oldest)
  {
    assert (a + [x])[..|a|] == a;
  }

  lemma {:induction false} SumAddsUp(amounts: seq<(int, Counts)>)
    ensures AddsUpTo(amounts, SumOf(amounts))
  {
    if amounts != [] {
      var front, last := amounts[..|amounts| - 1], amounts[|amounts| - 1];
      SumAddsUp(front);
      AddsUpMore(front, last, SumOf(front));
      assert amounts == front + [last];
    }
  }

  lemma {:induction false} SumOfLast(amounts: seq<(int, Counts)>, x: (int, Counts))
    ensures SumOf(amounts + [x]) == Plus(SumOf(amounts), x.1)
  {
    assert (amounts + [x])[..|amounts|] == amounts;
  }

  lemma {:induction false} FlattenLast(behind: seq<seq<(int, Counts)>>, amounts: seq<(int, Counts)>)
    ensures Flatten(behind + [amounts]) == Flatten(behind) + amounts
  {
    assert (behind + [amounts])[..|behind|] == behind;
  }

  /** Amounts of one bucket count together or not at all. */
  lemma {:induction false} SinceBucketGroup(grain: int, a: seq<(int, Counts)>, amounts: seq<(int, Counts)>,
                                            bucket: int, oldest: int)
    requires grain > 0 && InBucket(grain, bucket, amounts)
    ensures SinceBucket(grain, a + amounts, oldest)
            == if bucket >= oldest then Plus(SinceBucket(grain, a, oldest), SumOf(amounts))
               else SinceBucket(grain, a, oldest)
  {
    if amounts == [] {
      assert a + amounts == a;
    } else {
      var front, last := amounts[..|amounts| - 1], amounts[|amounts| - 1];
      assert amounts == front + [last] && a + amounts == (a + front) + [last];
      assert BucketOf(grain, last.0) == bucket;
      SinceBucketGroup(grain, a, front, bucket, oldest);
      SinceBucketLast(grain, a + front, last, oldest);
      SumOfLast(front, last);
    }
  }

  /** At bucket resolution a row and the amounts behind it are the same. */
  lemma {:induction false} ExplainedSince(grain: int, recorded: seq<(int, Counts)>, behind: seq<seq<(int, Counts)>>,
                                          oldest: int)
    requires grain > 0 && Explains(grain, recorded, behind)
    ensures SinceBucket(grain, Flatten(behind), oldest) == SinceBucket(grain, recorded, oldest)
  {
    if recorded != [] {
      var rows, row := recorded[..|recorded| - 1], recorded[|recorded| - 1];
      var rest, amounts := behind[..|rows|], behind[|rows|];
      assert recorded == rows + [row] && behind == rest + [amounts] && Behind(grain, row, amounts);
      SumAddsUp(amounts);
      ExplainedSince(grain, rows, rest, oldest);
      FlattenLast(rest, amounts);
      SinceBucketLast(grain, rows, row, oldest);
      SinceBucketGroup(grain, Flatten(rest), amounts, BucketOf(grain, row.0), oldest);
    }
  }

  /** Each number lies between its total over a window and over that window widened by less than one grain. */
  ghost predicate Bracketed(sum: Counts, traffic: seq<(int, Counts)>, from: int, grain: int) {
    var within, widened := FromInstant(traffic, from), FromInstant(traffic, from - grain + 1);
    && RequestsOf(within) <= sum.requests <= RequestsOf(widened)
    && TokensOf(within) <= sum.tokens <= TokensOf(widened)
    && CostOf(within) <= sum.costUsd <= CostOf(widened)
  }

  lemma {:induction false} BracketInNumbers(grain: int, traffic: seq<(int, Counts)>, from: int)
    requires grain > 0 && NonNegative(traffic)
    ensures Bracketed(SinceBucket(grain, traffic, BucketOf(grain, from)), traffic, from, grain)
  {
    BucketsBracketWindow(grain, traffic, from);
    SinceAddsUp(traffic, from);
    SinceAddsUp(traffic, from - grain + 1);
  }

  /**
   The promise to the rate limiter, for every run asked about no earlier than it happened, and for whatever
   traffic lies behind the rows it was seeded with: of requests, tokens and cost alike, the sum is never
   less than the true sliding-window total of that traffic, and never more than its total over that window
   widened by less than one grain.
   */
  lemma {:induction false} SumBracketsWindow(grain: int, window: int, events: seq<Event>, now: int,
                                             behind: seq<seq<(int, Counts)>>)
    requires grain > 0 && NoneLater(events, now)
    requires Explains(grain, Recorded(grain, events), behind) && NonNegative(Flatten(behind))
    ensures Play(grain, window, events).Some? ==>
              Bracketed(Total(Trim(Play(grain, window, events).value, Oldest(grain, window, now))),
                        Flatten(behind), now - window, grain)
  {
    if Play(grain, window, events).Some? {
      SumIsFold(grain, window, events, now);
      ExplainedSince(grain, Recorded(grain, events), behind, BucketOf(grain, now - window));
      BracketInNumbers(grain, Flatten(behind), now - window);
    }
  }

  /** Each row on its own. */
  ghost function Singly(recorded: seq<(int, Counts)>): seq<seq<(int, Counts)>> {
    seq(|recorded|, i requires 0 <= i < |recorded| => [recorded[i]])
  }

  lemma {:induction false} SinglyExplains(grain: int, recorded: seq<(int, Counts)>)
    requires grain > 0
    ensures Explains(grain, recorded, Singly(recorded)) && Flatten(Singly(recorded)) == recorded
  {
    forall i | 0 <= i < |recorded|
      ensures Behind(grain, recorded[i], Singly(recorded)[i])
    {
      assert [recorded[i]][..0] == [] && RequestsOf([]) == 0 && TokensOf([]) == 0 && CostOf([]) == 0.0;
    }
    SinglyFlat(recorded);
  }

  lemma {:induction false} SinglyFlat(recorded: seq<(int, Counts)>)
    ensures Flatten(Singly(recorded)) == recorded
  {
    if recorded != [] {
      var front := recorded[..|recorded| - 1];
      SinglyFlat(front);
      assert Singly(recorded)[..|front|] == Singly(front);
      assert front + [recorded[|front|]] == recorded;
    }
  }

  /** A key answers null exactly when nothing has ever seeded it, whatever was added. */
  lemma {:induction false} NullUntilSeeded(grain: int, window: int, events: seq<Event>)
    requires grain > 0
    ensures Play(grain, window, events).None? <==> forall e :: e in events ==> !e.Seeded?
  {
    if events != [] {
      NullUntilSeeded(grain, window, events[..|events| - 1]);
      assert events == events[..|events| - 1] + [events[|events| - 1]];
    }
  }

  // ---------------------------------------------------------------- the rows of a seed

  ghost predicate DistinctBuckets(grain: int, rows: seq<(int, Counts)>)
    requires grain > 0
  {
    forall i, j :: 0 <= i < j < |rows| ==> BucketOf(grain, rows[i].0) != BucketOf(grain, rows[j].0)
  }

  lemma {:induction false} EffectiveLength(grain: int, rows: seq<(int, Counts)>, taken: set<int>)
    requires grain > 0
    ensures |Effective(grain, rows, taken)| <= |rows|
    ensures |Effective(grain, rows, taken)| == |rows| ==>
      DistinctBuckets(grain, rows) && forall r :: r in rows ==> BucketOf(grain, r.0) !in taken
  {
    if rows != [] {
      var before, last := rows[..|rows| - 1], rows[|rows| - 1];
      var b := BucketOf(grain, last.0);
      EffectiveLength(grain, before, if b in taken then taken else taken + {b});
      assert rows == before + [last];
      if |Effective(grain, rows, taken)| == |rows| {
        forall i, j | 0 <= i < j < |rows|
          ensures BucketOf(grain, rows[i].0) != BucketOf(grain, rows[j].0)
        {
          assert rows[i] in before;
        }
      }
    }
  }

  lemma {:induction false} DistinctRowsAllCount(grain: int, rows: seq<(int, Counts)>, taken: set<int>)
    requires grain > 0 && DistinctBuckets(grain, rows)
    requires forall r :: r in rows ==> BucketOf(grain, r.0) !in taken
    ensures Effective(grain, rows, taken) == rows
  {
    if rows != [] {
      var before, last := rows[..|rows| - 1], rows[|rows| - 1];
      assert rows == before + [last] && last in rows;
      forall r | r in before
        ensures BucketOf(grain, r.0) !in taken + {BucketOf(grain, last.0)}
      {
        assert r in rows;
        var i :| 0 <= i < |before| && rows[i] == r;
      }
      DistinctRowsAllCount(grain, before, taken + {BucketOf(grain, last.0)});
    }
  }

  /** Every row of a seed is counted if and only if no two rows fall in the same bucket. */
  lemma {:induction false} SeedCountsEveryRow(grain: int, rows: seq<(int, Counts)>)
    requires grain > 0
    ensures Effective(grain, rows, {}) == rows <==> DistinctBuckets(grain, rows)
  {
    EffectiveLength(grain, rows, {});
    if DistinctBuckets(grain, rows) {
      DistinctRowsAllCount(grain, rows, {});
    }
  }

  /** Two rows of one bucket: the second replaces the first, and its amount is lost. */
  lemma {:induction false} SecondRowReplacesFirst(first: Counts, second: Counts)
    ensures SeedRows(10, [(0, first), (5, second)]) == map[0 := second]
    ensures !DistinctBuckets(10, [(0, first), (5, second)])
  {
    var rows := [(0, first), (5, second)];
    assert rows[..1] == [(0, first)] && [(0, first)][..0] == [];
    assert BucketOf(10, 0) == 0 && BucketOf(10, 5) == 0;
    assert SeedRows(10, [(0, first)]) == map[0 := first];
    assert rows[0].0 == 0 && rows[1].0 == 5;
  }
}
