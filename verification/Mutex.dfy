/**
 The coordinator's in-memory mutex.

 `withLock` reads the lock table, waits on the promise it finds there (or on its own
 timer) and, once the key is free, publishes a promise of its own and runs the body.
 JavaScript runs the code between two awaits without interruption, so each such stretch
 is one atomic step here; a promise is a number, resolved when it is in `resolved`.
 */
module Mutex {

  type Key = string
  type PromiseId = nat

  datatype Table = Table(locks: map<Key, PromiseId>, resolved: set<PromiseId>, minted: nat)

  /** What one look at the table yields: a promise to wait on, or the lock itself. */
  datatype Attempt = Blocked(on: PromiseId) | Entered(gate: PromiseId)

  function TryEnter(t: Table, key: Key): (r: (Table, Attempt)) {
    if key in t.locks then (t, Blocked(t.locks[key]))
    else (t.(locks := t.locks[key := t.minted], minted := t.minted + 1), Entered(t.minted))
  }

  /** The `finally` block of the holder: forget the entry, then wake whoever waits on it. */
  function Leave(t: Table, key: Key, gate: PromiseId): (r: Table) {
    t.(locks := t.locks - {key}, resolved := t.resolved + {gate})
  }

  /** The table as the coordinator holds it: one mutable map and its promises. */
  class LockTable {
    var locks: map<Key, PromiseId>
    var resolved: set<PromiseId>
    var minted: nat

    ghost function View(): Table
      reads this
    {
      Table(locks, resolved, minted)
    }

    constructor ()
      ensures View() == Table(map[], {}, 0)
    {
      locks, resolved, minted := map[], {}, 0;
    }

    method Attempt(key: Key) returns (outcome: Attempt)
      modifies this
      ensures (View(), outcome) == TryEnter(old(View()), key)
    {
      if key in locks {
        outcome := Blocked(locks[key]);
      } else {
        var gate := minted;
        minted := minted + 1;
        locks := locks[key := gate];
        outcome := Entered(gate);
      }
    }

    method Release(key: Key, gate: PromiseId)
      modifies this
      ensures View() == Leave(old(View()), key, gate)
    {
      locks := locks - {key};
      resolved := resolved + {gate};
    }
  }

  // ---------------------------------------------------------------- the protocol

  type Caller = nat

  datatype Outcome = Returned | Threw | LockUnavailable

  datatype Phase =
    | Waiting(key: Key, on: PromiseId)
    | Running(key: Key, gate: PromiseId)
    | Settled(outcome: Outcome)

  datatype State = State(table: Table, callers: map<Caller, Phase>, expired: set<Caller>)

  /**
   One step of the whole program: a new call, a waiter resuming because the promise it
   waited on resolved, its timer firing, a waiter resuming because of that timer, or a
   body ending, normally or by throwing.
   */
  datatype Step =
    | Call(c: Caller, key: Key)
    | WakeReleased(c: Caller)
    | TimerFires(c: Caller)
    | WakeExpired(c: Caller)
    | BodyEnds(c: Caller, threw: bool)

  const INIT: State := State(Table(map[], {}, 0), map[], {})

  predicate Enabled(s: State, step: Step) {
    match step
    case Call(c, _) => c !in s.callers
    case WakeReleased(c) => c in s.callers && s.callers[c].Waiting? && s.callers[c].on in s.table.resolved
    // The timer is cleared on every way out of the wait, so it only fires inside it.
    case TimerFires(c) => c in s.callers && s.callers[c].Waiting? && c !in s.expired
    case WakeExpired(c) => c in s.callers && s.callers[c].Waiting? && c in s.expired
    case BodyEnds(c, _) => c in s.callers && s.callers[c].Running?
  }

  function After(key: Key, outcome: Attempt): Phase {
    match outcome
    case Blocked(p) => Waiting(key, p)
    case Entered(g) => Running(key, g)
  }

  function Look(s: State, c: Caller, key: Key): State {
    var (table, outcome) := TryEnter(s.table, key);
    s.(table := table, callers := s.callers[c := After(key, outcome)])
  }

  function Apply(s: State, step: Step): State
    requires Enabled(s, step)
  {
    match step
    case Call(c, key) => Look(s, c, key)
    case WakeReleased(c) => Look(s, c, s.callers[c].key)
    case TimerFires(c) => s.(expired := s.expired + {c})
    case WakeExpired(c) => s.(callers := s.callers[c := Settled(LockUnavailable)])
    case BodyEnds(c, threw) =>
      var phase := s.callers[c];
      s.(table := Leave(s.table, phase.key, phase.gate),
         callers := s.callers[c := Settled(if threw then Threw else Returned)])
  }

  ghost predicate Legal(s: State, run: seq<Step>)
    decreases |run|
  {
    run == [] || (Enabled(s, run[0]) && Legal(Apply(s, run[0]), run[1..]))
  }

  ghost function Execute(s: State, run: seq<Step>): State
    requires Legal(s, run)
    decreases |run|
  {
    if run == [] then s else Execute(Apply(s, run[0]), run[1..])
  }

  // ---------------------------------------------------------------- safety

  predicate RunsBody(s: State, c: Caller, key: Key) {
    c in s.callers && s.callers[c].Running? && s.callers[c].key == key
  }

  ghost predicate MutuallyExclusive(s: State) {
    forall c1, c2, key :: RunsBody(s, c1, key) && RunsBody(s, c2, key) ==> c1 == c2
  }

  ghost predicate EntryExactlyWhileRunning(s: State) {
    forall key :: key in s.table.locks <==> exists c :: RunsBody(s, c, key)
  }

  /** A waiter whose promise is still open waits on the promise of whoever holds the key. */
  ghost predicate NoLostWakeup(s: State) {
    forall c :: c in s.callers && s.callers[c].Waiting? && s.callers[c].on !in s.table.resolved ==>
      exists h :: RunsBody(s, h, s.callers[c].key) && s.callers[h].gate == s.callers[c].on
  }

  ghost predicate TableOk(t: Table) {
    && (forall k :: k in t.locks ==> t.locks[k] < t.minted && t.locks[k] !in t.resolved)
    && (forall k1, k2 :: k1 in t.locks && k2 in t.locks && t.locks[k1] == t.locks[k2] ==> k1 == k2)
    && (forall p :: p in t.resolved ==> p < t.minted)
  }

  ghost predicate PhaseOk(t: Table, phase: Phase) {
    match phase
    case Waiting(k, p) => p < t.minted && (p !in t.resolved ==> k in t.locks && t.locks[k] == p)
    case Running(k, g) => k in t.locks && t.locks[k] == g
    case Settled(_) => true
  }

  ghost predicate Inv(s: State) {
    && TableOk(s.table)
    && (forall c :: c in s.callers ==> PhaseOk(s.table, s.callers[c]))
    && MutuallyExclusive(s)
    && (forall key :: key in s.table.locks ==> exists c :: RunsBody(s, c, key))
  }

  lemma {:induction false} LookKeepsInv(s: State, c: Caller, key: Key)
    requires Inv(s)
    requires c in s.callers ==> s.callers[c].Waiting?
    ensures Inv(Look(s, c, key))
  {
    var s' := Look(s, c, key);
    forall k | k in s'.table.locks
      ensures exists h :: RunsBody(s', h, k)
    {
      if k in s.table.locks {
        var h :| RunsBody(s, h, k);
        assert RunsBody(s', h, k);
      } else {
        assert RunsBody(s', c, k);
      }
    }
    forall c1, c2, k | RunsBody(s', c1, k) && RunsBody(s', c2, k)
      ensures c1 == c2
    {
      if c1 != c && c2 != c {
        assert RunsBody(s, c1, k) && RunsBody(s, c2, k);
      }
    }
  }

  lemma {:induction false} LeaveKeepsInv(s: State, step: Step)
    requires Inv(s) && Enabled(s, step) && step.BodyEnds?
    ensures Inv(Apply(s, step))
  {
    var s' := Apply(s, step);
    var c := step.c;
    forall k | k in s'.table.locks
      ensures exists h :: RunsBody(s', h, k)
    {
      var h :| RunsBody(s, h, k);
      assert RunsBody(s', h, k);
    }
    forall c1, c2, k | RunsBody(s', c1, k) && RunsBody(s', c2, k)
      ensures c1 == c2
    {
      assert RunsBody(s, c1, k) && RunsBody(s, c2, k);
    }
    forall d | d in s'.callers
      ensures PhaseOk(s'.table, s'.callers[d])
    {
      if d != c && s.callers[d].Running? && s.callers[d].key == s.callers[c].key {
        assert RunsBody(s, d, s.callers[c].key) && RunsBody(s, c, s.callers[c].key);
      }
    }
  }

  lemma {:induction false} StepKeepsInv(s: State, step: Step)
    requires Inv(s) && Enabled(s, step)
    ensures Inv(Apply(s, step))
  {
    var s' := Apply(s, step);
    match step
    case Call(c, key) => LookKeepsInv(s, c, key);
    case WakeReleased(c) => LookKeepsInv(s, c, s.callers[c].key);
    case BodyEnds(_, _) => LeaveKeepsInv(s, step);
    case TimerFires(_) =>
      assert forall c, k :: RunsBody(s', c, k) <==> RunsBody(s, c, k);
    case WakeExpired(_) =>
      assert forall c, k :: RunsBody(s', c, k) <==> RunsBody(s, c, k);
  }

  lemma {:induction false} RunKeepsInv(s: State, run: seq<Step>)
    requires Inv(s) && Legal(s, run)
    ensures Inv(Execute(s, run))
    decreases |run|
  {
    if run != [] {
      StepKeepsInv(s, run[0]);
      RunKeepsInv(Apply(s, run[0]), run[1..]);
    }
  }

  /** The three promises of the mutex, at the end of every run and so at every point of it. */
  lemma {:induction false} MutexSafety(run: seq<Step>)
    requires Legal(INIT, run)
    ensures MutuallyExclusive(Execute(INIT, run))
    ensures EntryExactlyWhileRunning(Execute(INIT, run))
    ensures NoLostWakeup(Execute(INIT, run))
  {
    RunKeepsInv(INIT, run);
    var s := Execute(INIT, run);
    forall c | c in s.callers && s.callers[c].Waiting? && s.callers[c].on !in s.table.resolved
      ensures exists h :: RunsBody(s, h, s.callers[c].key) && s.callers[h].gate == s.callers[c].on
    {
      var h :| RunsBody(s, h, s.callers[c].key);
      assert s.callers[h].gate == s.callers[c].on;
    }
  }

  // ---------------------------------------------------------------- progress

  function WaitingOf(s: State): set<Caller> { set c | c in s.callers && s.callers[c].Waiting? }
  function RunningOf(s: State): set<Caller> { set c | c in s.callers && s.callers[c].Running? }
  function WakeableOf(s: State): set<Caller> {
    set c | c in s.callers && s.callers[c].Waiting? && s.callers[c].on in s.table.resolved
  }
  function ArmedOf(s: State): set<Caller> { set c | c in s.callers && s.callers[c].Waiting? && c !in s.expired }

  /** How many more steps the callers already present can take between them, at most. */
  function Work(s: State): nat {
    (|s.callers| + 2) * (2 * |WaitingOf(s)| + |RunningOf(s)|) + |WakeableOf(s)| + |ArmedOf(s)|
  }

  lemma {:induction false} Subset<T>(a: set<T>, b: set<T>)
    requires a <= b
    ensures |a| <= |b|
  {
    if a != b {
      assert b == a + (b - a);
    }
  }

  lemma {:induction false} RewaitingSpendsWork(s: State, c: Caller)
    requires Inv(s) && Enabled(s, WakeReleased(c)) && s.callers[c].key in s.table.locks
    ensures Work(Apply(s, WakeReleased(c))) < Work(s)
  {
    var s' := Apply(s, WakeReleased(c));
    assert s'.callers.Keys == s.callers.Keys;
    assert WakeableOf(s') == WakeableOf(s) - {c};
    assert WaitingOf(s') == WaitingOf(s) && RunningOf(s') == RunningOf(s) && ArmedOf(s') == ArmedOf(s);
  }

  lemma {:induction false} EnteringSpendsWork(s: State, c: Caller)
    requires Enabled(s, WakeReleased(c)) && s.callers[c].key !in s.table.locks
    ensures Work(Apply(s, WakeReleased(c))) < Work(s)
  {
    var s' := Apply(s, WakeReleased(c));
    assert s'.callers.Keys == s.callers.Keys;
    assert |WaitingOf(s')| == |WaitingOf(s)| - 1 by { assert WaitingOf(s') == WaitingOf(s) - {c}; }
    assert |RunningOf(s')| == |RunningOf(s)| + 1 by { assert RunningOf(s') == RunningOf(s) + {c}; }
    assert |WakeableOf(s')| <= |WakeableOf(s)| by { Subset(WakeableOf(s'), WakeableOf(s)); }
    assert |ArmedOf(s')| <= |ArmedOf(s)| by { Subset(ArmedOf(s'), ArmedOf(s)); }
    Weigh(|s.callers| + 2, 2 * |WaitingOf(s')| + |RunningOf(s')|, 2 * |WaitingOf(s)| + |RunningOf(s)|);
  }

  lemma {:induction false} Weigh(w: nat, a: nat, b: nat)
    requires a < b
    ensures w * a + w <= w * b
  {
    calc {
      w * a + w;
      w * (a + 1);
    <= { MulMono(w, a + 1, b); }
      w * b;
    }
  }

  lemma {:induction false} MulMono(w: nat, a: nat, b: nat)
    requires a <= b
    ensures w * a <= w * b
  {
  }

  lemma {:induction false} TimerSpendsWork(s: State, c: Caller)
    requires Enabled(s, TimerFires(c))
    ensures Work(Apply(s, TimerFires(c))) < Work(s)
  {
    var s' := Apply(s, TimerFires(c));
    assert WaitingOf(s') == WaitingOf(s) && RunningOf(s') == RunningOf(s) && WakeableOf(s') == WakeableOf(s);
    assert ArmedOf(s') == ArmedOf(s) - {c};
    assert |ArmedOf(s')| == |ArmedOf(s)| - 1;
  }

  lemma {:induction false} LeavingSpendsWork(s: State, step: Step)
    requires Enabled(s, step) && (step.WakeExpired? || step.BodyEnds?)
    ensures Work(Apply(s, step)) < Work(s)
  {
    var s' := Apply(s, step);
    var c := step.c;
    assert s'.callers.Keys == s.callers.Keys;
    assert 2 * |WaitingOf(s')| + |RunningOf(s')| < 2 * |WaitingOf(s)| + |RunningOf(s)| by {
      assert WaitingOf(s') == WaitingOf(s) - {c} && RunningOf(s') == RunningOf(s) - {c};
    }
    assert |ArmedOf(s')| <= |ArmedOf(s)| by { Subset(ArmedOf(s'), ArmedOf(s)); }
    assert |WakeableOf(s')| <= |s.callers| by { Subset(WakeableOf(s'), s.callers.Keys); }
    Weigh(|s.callers| + 2, 2 * |WaitingOf(s')| + |RunningOf(s')|, 2 * |WaitingOf(s)| + |RunningOf(s)|);
  }

  lemma {:induction false} StepSpendsWork(s: State, step: Step)
    requires Inv(s) && Enabled(s, step) && !step.Call?
    ensures Work(Apply(s, step)) < Work(s)
  {
    match step
    case WakeReleased(c) =>
      if s.callers[c].key in s.table.locks { RewaitingSpendsWork(s, c); } else { EnteringSpendsWork(s, c); }
    case TimerFires(c) => TimerSpendsWork(s, c);
    case WakeExpired(_) => LeavingSpendsWork(s, step);
    case BodyEnds(_, _) => LeavingSpendsWork(s, step);
  }

  lemma {:induction false} ClosedRunBounded(s: State, rest: seq<Step>)
    requires Inv(s) && Legal(s, rest)
    requires forall i :: 0 <= i < |rest| ==> !rest[i].Call?
    ensures Work(Execute(s, rest)) + |rest| <= Work(s)
    decreases |rest|
  {
    if rest != [] {
      StepKeepsInv(s, rest[0]);
      StepSpendsWork(s, rest[0]);
      ClosedRunBounded(Apply(s, rest[0]), rest[1..]);
    }
  }

  /** While a caller is unsettled, some step other than a new call is possible. */
  lemma {:induction false} SomethingCanMove(s: State, c: Caller) returns (step: Step)
    requires Inv(s) && c in s.callers && !s.callers[c].Settled?
    ensures Enabled(s, step) && !step.Call?
  {
    if s.callers[c].Running? {
      step := BodyEnds(c, false);
    } else if s.callers[c].on in s.table.resolved {
      step := WakeReleased(c);
    } else {
      var h :| RunsBody(s, h, s.callers[c].key);
      step := BodyEnds(h, false);
    }
  }

  /**
   No caller is stranded. From any point of any run, the callers already present can take
   only boundedly many further steps between them, and when none of those steps remains
   possible every caller has its answer. Hence as long as bodies end, every `withLock`
   settles, whatever order the scheduler picks.
   */
  lemma {:induction false} EveryCallerSettles(run: seq<Step>, rest: seq<Step>)
    requires Legal(INIT, run) && Legal(Execute(INIT, run), rest)
    requires forall i :: 0 <= i < |rest| ==> !rest[i].Call?
    ensures |rest| <= Work(Execute(INIT, run))
    ensures var s := Execute(Execute(INIT, run), rest);
            (forall step :: Enabled(s, step) ==> step.Call?) ==> forall c :: c in s.callers ==> s.callers[c].Settled?
  {
    RunKeepsInv(INIT, run);
    var start := Execute(INIT, run);
    ClosedRunBounded(start, rest);
    RunKeepsInv(start, rest);
    var s := Execute(start, rest);
    if forall step :: Enabled(s, step) ==> step.Call? {
      forall c | c in s.callers
        ensures s.callers[c].Settled?
      {
        if !s.callers[c].Settled? {
          var step := SomethingCanMove(s, c);
        }
      }
    }
  }

  // ---------------------------------------------------------------- what each caller is told

  /** How a caller's phase comes about: it is told that its body returned, or threw, or never ran. */
  ghost predicate ToldTrue(s: State, run: seq<Step>, c: Caller) {
    && (c in s.callers <==> exists key :: Call(c, key) in run)
    && (c in s.callers && s.callers[c] == Settled(Returned) <==> BodyEnds(c, false) in run)
    && (c in s.callers && s.callers[c] == Settled(Threw) <==> BodyEnds(c, true) in run)
    && (c in s.callers && s.callers[c] == Settled(LockUnavailable) <==> WakeExpired(c) in run)
  }

  lemma {:induction false} ToldTrueNext(s: State, run: seq<Step>, step: Step, c: Caller)
    requires ToldTrue(s, run, c) && Enabled(s, step)
    ensures ToldTrue(Apply(s, step), run + [step], c)
  {
    assert forall e :: e in run + [step] <==> e in run || e == step;
    if exists key :: Call(c, key) in run {
      var key :| Call(c, key) in run;
      assert Call(c, key) in run + [step];
    }
    if step.Call? && step.c == c {
      assert Call(c, step.key) in run + [step];
    }
  }

  lemma {:induction false} ExecuteLast(s: State, run: seq<Step>, step: Step)
    requires Legal(s, run + [step])
    ensures Legal(s, run) && Enabled(Execute(s, run), step)
    ensures Execute(s, run + [step]) == Apply(Execute(s, run), step)
    decreases |run|
  {
    if run == [] {
      assert run + [step] == [step] && [step][1..] == [];
    } else {
      assert (run + [step])[0] == run[0] && (run + [step])[1..] == run[1..] + [step];
      ExecuteLast(Apply(s, run[0]), run[1..], step);
    }
  }

  /**
   Every caller is told the truth, in every run: that its body returned, or that it threw, exactly when that
   happened, and that the lock was unavailable exactly when its deadline woke it, in which case its body never ran.
   */
  lemma {:induction false} AnswersAreTrue(run: seq<Step>, c: Caller)
    requires Legal(INIT, run)
    ensures ToldTrue(Execute(INIT, run), run, c)
    ensures WakeExpired(c) in run ==> BodyEnds(c, false) !in run && BodyEnds(c, true) !in run
    decreases |run|
  {
    if run != [] {
      var front, last := run[..|run| - 1], run[|run| - 1];
      assert run == front + [last];
      ExecuteLast(INIT, front, last);
      AnswersAreTrue(front, c);
      ToldTrueNext(Execute(INIT, front), front, last, c);
    }
  }

  lemma {:induction false} OneStep(s: State, step: Step, run: seq<Step>)
    requires Enabled(s, step) && Legal(Apply(s, step), run)
    ensures Legal(s, [step] + run) && Execute(s, [step] + run) == Execute(Apply(s, step), run)
  {
    assert ([step] + run)[1..] == run;
  }

  /** The second caller of a key waits on the first one's promise. */
  lemma {:induction false} SecondWaits(key: Key)
    ensures var first := State(Table(map[key := 0], {}, 1), map[0 := Running(key, 0)], {});
            && Enabled(INIT, Call(0, key)) && Apply(INIT, Call(0, key)) == first
            && Enabled(first, Call(1, key))
            && Apply(first, Call(1, key)) == first.(callers := map[0 := Running(key, 0), 1 := Waiting(key, 0)])
  {
  }

  /** It is woken when the first one's body ends, by throwing or not, and finds the key free. */
  lemma {:induction false} SecondEnters(key: Key)
    ensures var waits := State(Table(map[key := 0], {}, 1), map[0 := Running(key, 0), 1 := Waiting(key, 0)], {});
            var freed := State(Table(map[], {0}, 1), map[0 := Settled(Threw), 1 := Waiting(key, 0)], {});
            var enters := State(Table(map[key := 1], {0}, 2), map[0 := Settled(Threw), 1 := Running(key, 1)], {});
            && Enabled(waits, BodyEnds(0, true)) && Apply(waits, BodyEnds(0, true)) == freed
            && Enabled(freed, WakeReleased(1)) && Apply(freed, WakeReleased(1)) == enters
            && Enabled(enters, BodyEnds(1, false))
            && Apply(enters, BodyEnds(1, false)).callers == map[0 := Settled(Threw), 1 := Settled(Returned)]
            && Apply(enters, BodyEnds(1, false)).table.locks == map[]
  {
  }

  lemma {:induction false} FiveSteps(s: State, a: Step, b: Step, c: Step, d: Step, e: Step)
    requires Enabled(s, a) && Enabled(Apply(s, a), b) && Enabled(Apply(Apply(s, a), b), c)
    requires var s3 := Apply(Apply(Apply(s, a), b), c); Enabled(s3, d) && Enabled(Apply(s3, d), e)
    ensures Legal(s, [a] + ([b] + ([c] + ([d] + ([e] + [])))))
    ensures Execute(s, [a] + ([b] + ([c] + ([d] + ([e] + [])))))
            == Apply(Apply(Apply(Apply(Apply(s, a), b), c), d), e)
  {
    var s1 := Apply(s, a);
    var s2 := Apply(s1, b);
    var s3 := Apply(s2, c);
    var s4 := Apply(s3, d);
    OneStep(s4, e, []);
    OneStep(s3, d, [e] + []);
    OneStep(s2, c, [d] + ([e] + []));
    OneStep(s1, b, [c] + ([d] + ([e] + [])));
    OneStep(s, a, [b] + ([c] + ([d] + ([e] + []))));
  }

  /** And there are such runs: two callers of one key, of whom the second waits and is let in by the first. */
  lemma {:induction false} ContendedRun(key: Key) returns (run: seq<Step>)
    ensures Legal(INIT, run) && Call(0, key) in run && Call(1, key) in run
    ensures Execute(INIT, run).callers == map[0 := Settled(Threw), 1 := Settled(Returned)]
    ensures Execute(INIT, run).table.locks == map[]
  {
    SecondWaits(key);
    SecondEnters(key);
    FiveSteps(INIT, Call(0, key), Call(1, key), BodyEnds(0, true), WakeReleased(1), BodyEnds(1, false));
    var rest := [BodyEnds(0, true)] + ([WakeReleased(1)] + ([BodyEnds(1, false)] + []));
    run := [Call(0, key)] + ([Call(1, key)] + rest);
  }
}
