/**
 The admission latch in front of client traffic while the database is replaced.

 A request is a ticket whose closure holds a `released` flag. A `close` runs in two atomic
 steps: up to its await, and from the moment its idle promise or its deadline wakes it.
 */
module Quiesce {
  import opened Wrappers

  type Ticket = nat
  type Closer = nat

  /** A `close` call that waits, or what it returned. */
  datatype Call = Waiting | Returned(drained: bool, inFlight: int)

  /** `onIdle` is the close whose idle promise would be resolved; `idle` holds the resolved ones. */
  datatype State = State(
    admitting: bool,
    inFlight: int,
    onIdle: Option<Closer>,
    tickets: map<Ticket, bool>,
    idle: set<Closer>,
    calls: map<Closer, Call>)

  datatype Step =
    | Enter(t: Ticket)
    | Release(t: Ticket)
    | Open
    | Close(c: Closer)
    | Wake(c: Closer, timedOut: bool)

  const INIT: State := State(true, 0, None, map[], {}, map[])

  predicate Enabled(s: State, step: Step) {
    match step
    case Enter(t) => t !in s.tickets
    case Release(t) => t in s.tickets
    case Open => true
    case Close(c) => c !in s.calls
    case Wake(c, timedOut) => c in s.calls && s.calls[c].Waiting? && (timedOut || c in s.idle)
  }

  function Settle(s: State): State {
    if s.inFlight > 0 || s.onIdle.None? then s
    else s.(idle := s.idle + {s.onIdle.value}, onIdle := None)
  }

  function Apply(s: State, step: Step): State
    requires Enabled(s, step)
  {
    match step
    case Enter(t) =>
      if !s.admitting then s else s.(inFlight := s.inFlight + 1, tickets := s.tickets[t := false])
    case Release(t) =>
      if s.tickets[t] then s else Settle(s.(inFlight := s.inFlight - 1, tickets := s.tickets[t := true]))
    case Open => s.(admitting := true)
    case Close(c) =>
      if s.inFlight == 0 then s.(admitting := false, calls := s.calls[c := Returned(true, 0)])
      else s.(admitting := false, onIdle := Some(c), calls := s.calls[c := Waiting])
    case Wake(c, _) =>
      s.(onIdle := None, calls := s.calls[c := Returned(s.inFlight == 0, s.inFlight)])
  }

  /** The latch itself: three variables, and the closures and promises it has handed out. */
  class Latch {
    var admitting: bool
    var inFlight: int
    var onIdle: Option<Closer>
    var released: map<Ticket, bool>
    var idle: set<Closer>
    ghost var calls: map<Closer, Call>

    ghost function View(): State
      reads this
    {
      State(admitting, inFlight, onIdle, released, idle, calls)
    }

    constructor ()
      ensures View() == INIT
    {
      admitting, inFlight, onIdle, released, idle := true, 0, None, map[], {};
      calls := map[];
    }

    method SettleIdle()
      modifies this
      ensures View() == Settle(old(View()))
    {
      if inFlight > 0 || onIdle == None {
        return;
      }
      idle := idle + {onIdle.value};
      onIdle := None;
    }

    method Admit(t: Ticket) returns (admitted: bool)
      requires Enabled(View(), Enter(t))
      modifies this
      ensures View() == Apply(old(View()), Enter(t))
      ensures admitted == old(admitting)
    {
      admitted := admitting;
      if admitted {
        inFlight := inFlight + 1;
        released := released[t := false];
      }
    }

    method ReleaseTicket(t: Ticket)
      requires Enabled(View(), Release(t))
      modifies this
      ensures View() == Apply(old(View()), Release(t))
    {
      if released[t] {
        return;
      }
      released := released[t := true];
      inFlight := inFlight - 1;
      SettleIdle();
    }

    method Reopen()
      modifies this
      ensures View() == Apply(old(View()), Open)
    {
      admitting := true;
    }

    /** Up to the await: answers at once when nothing is in flight. */
    method BeginClose(c: Closer) returns (answer: Call)
      requires Enabled(View(), Close(c))
      modifies this
      ensures View() == Apply(old(View()), Close(c)) && answer == View().calls[c]
    {
      admitting := false;
      if inFlight == 0 {
        answer := Returned(true, 0);
      } else {
        onIdle := Some(c);
        answer := Waiting;
      }
      calls := calls[c := answer];
    }

    /** From the wake to the answer. */
    method FinishClose(c: Closer, ghost timedOut: bool) returns (answer: Call)
      requires Enabled(View(), Wake(c, timedOut))
      modifies this
      ensures View() == Apply(old(View()), Wake(c, timedOut)) && answer == View().calls[c]
    {
      onIdle := None;
      answer := Returned(inFlight == 0, inFlight);
      calls := calls[c := answer];
    }
  }

  // ---------------------------------------------------------------- runs

  ghost predicate Legal(s: State, run: seq<Step>)
    decreases |run|
  {
    run == [] || (Enabled(s, run[0]) && Legal(Apply(s, run[0]), run[1..]))
  }

  ghost function Execute(s: State, run: seq<Step>): State
    requires Legal(s, run)
    decreases |run|
  {
    if run == [] then s else Execute(Apply(s, run[0]), run[1..])
  }

  /** The requests admitted and not yet released. */
  function Live(tickets: map<Ticket, bool>): set<Ticket> {
    set t | t in tickets && !tickets[t]
  }

  /** Waiting, with its idle promise still unresolved. */
  predicate Pending(s: State, c: Closer) {
    c in s.calls && s.calls[c].Waiting? && c !in s.idle
  }

  /** What holds in every run: the count is exact, and a registered closer has work to wait for. */
  ghost predicate Inv(s: State) {
    && s.inFlight == |Live(s.tickets)|
    && (s.onIdle.Some? ==> Pending(s, s.onIdle.value) && s.inFlight > 0)
    && (forall c :: c in s.idle ==> c in s.calls)
  }

  lemma {:induction false} EnteringAddsOne(tickets: map<Ticket, bool>, t: Ticket)
    requires t !in tickets
    ensures |Live(tickets[t := false])| == |Live(tickets)| + 1
  {
    assert Live(tickets[t := false]) == Live(tickets) + {t};
  }

  lemma {:induction false} ReleasingDropsOne(tickets: map<Ticket, bool>, t: Ticket)
    requires t in tickets && !tickets[t]
    ensures |Live(tickets[t := true])| == |Live(tickets)| - 1
  {
    assert Live(tickets[t := true]) == Live(tickets) - {t};
  }

  lemma {:induction false} StepKeepsInv(s: State, step: Step)
    requires Inv(s) && Enabled(s, step)
    ensures Inv(Apply(s, step))
  {
    match step
    case Enter(t) => EnteringAddsOne(s.tickets, t);
    case Release(t) =>
      if !s.tickets[t] {
        ReleasingDropsOne(s.tickets, t);
      }
    case Open =>
    case Close(c) =>
    case Wake(c, _) =>
  }

  lemma {:induction false} RunKeepsInv(s: State, run: seq<Step>)
    requires Inv(s) && Legal(s, run)
    ensures Inv(Execute(s, run))
    decreases |run|
  {
    if run != [] {
      StepKeepsInv(s, run[0]);
      RunKeepsInv(Apply(s, run[0]), run[1..]);
    }
  }

  /** In every run the counter is the number of admitted, unreleased requests. */
  lemma {:induction false} CountIsExact(run: seq<Step>)
    requires Legal(INIT, run)
    ensures Execute(INIT, run).inFlight == |Live(Execute(INIT, run).tickets)|
  {
    RunKeepsInv(INIT, run);
  }

  /** Releasing again, at any later moment of any run, changes nothing. */
  lemma {:induction false} SecondReleaseIsNothing(s: State, t: Ticket, run: seq<Step>)
    requires Enabled(s, Release(t)) && Legal(Apply(s, Release(t)), run)
    ensures var later := Execute(Apply(s, Release(t)), run);
            Enabled(later, Release(t)) && Apply(later, Release(t)) == later
  {
    ReleasedStays(Apply(s, Release(t)), t, run);
  }

  lemma {:induction false} ReleasedStays(s: State, t: Ticket, run: seq<Step>)
    requires t in s.tickets && s.tickets[t] && Legal(s, run)
    ensures t in Execute(s, run).tickets && Execute(s, run).tickets[t]
    decreases |run|
  {
    if run != [] {
      ReleasedStays(Apply(s, run[0]), t, run[1..]);
    }
  }

  // ---------------------------------------------------------------- one closer at a time

  /** Every close in the run starts when no other is waiting. */
  ghost predicate OneCloser(s: State, run: seq<Step>)
    requires Legal(s, run)
    decreases |run|
  {
    run == [] ||
    ((run[0].Close? ==> forall c :: c in s.calls ==> !s.calls[c].Waiting?)
     && OneCloser(Apply(s, run[0]), run[1..]))
  }

  /** The waiter, if there is one, is registered until it is resolved, and is alone. */
  ghost predicate Registered(s: State) {
    && (forall c: Closer :: Pending(s, c) ==> s.onIdle == Some(c))
    && (forall c, d :: c in s.calls && d in s.calls && s.calls[c].Waiting? && s.calls[d].Waiting? ==> c == d)
  }

  lemma {:induction false} StepKeepsRegistered(s: State, step: Step)
    requires Inv(s) && Registered(s) && Enabled(s, step)
    requires step.Close? ==> forall c :: c in s.calls ==> !s.calls[c].Waiting?
    ensures Registered(Apply(s, step))
  {
    var next := Apply(s, step);
    forall c: Closer | Pending(next, c)
      ensures next.onIdle == Some(c)
    {
      assert step.Close? || Pending(s, c);
    }
  }

  lemma {:induction false} RunKeepsRegistered(s: State, run: seq<Step>)
    requires Inv(s) && Registered(s) && Legal(s, run) && OneCloser(s, run)
    ensures Inv(Execute(s, run)) && Registered(Execute(s, run))
    decreases |run|
  {
    if run != [] {
      StepKeepsInv(s, run[0]);
      StepKeepsRegistered(s, run[0]);
      RunKeepsRegistered(Apply(s, run[0]), run[1..]);
    }
  }

  /**
   No wakeup is lost: with one closer at a time, in every run a waiting close either has been
   woken or still has an admitted request to wait for. So the last release always wakes it.
   */
  lemma {:induction false} LastReleaseWakes(run: seq<Step>, c: Closer)
    requires Legal(INIT, run) && OneCloser(INIT, run)
    ensures var s := Execute(INIT, run);
            c in s.calls && s.calls[c].Waiting? ==> Enabled(s, Wake(c, false)) || Live(s.tickets) != {}
  {
    RunKeepsRegistered(INIT, run);
    var s := Execute(INIT, run);
    if c in s.calls && s.calls[c].Waiting? && c !in s.idle {
      assert Pending(s, c);
    }
  }

  /**
   The assumption is needed. A registered closer loses its registration while it waits in exactly two
   ways: another close starts and takes it over, or another close wakes and clears it on the way out.
   */
  lemma {:induction false} RegistrationLost(s: State, step: Step, c: Closer)
    requires Inv(s) && s.onIdle == Some(c) && Enabled(s, step)
    ensures Pending(Apply(s, step), c) && Apply(s, step).onIdle != Some(c) <==> Disturbs(step, c)
  {
  }

  /** Another close starts or returns. */
  predicate Disturbs(step: Step, c: Closer) {
    (step.Close? || step.Wake?) && step.c != c
  }

  /** A waiting closer without its registration is woken by nothing but its own deadline, in any run. */
  lemma {:induction false} StrandedStays(s: State, c: Closer, run: seq<Step>)
    requires Legal(s, run) && Pending(s, c) && s.onIdle != Some(c)
    requires Wake(c, true) !in run
    ensures var t := Execute(s, run);
            Pending(t, c) && t.onIdle != Some(c) && !Enabled(t, Wake(c, false))
    decreases |run|
  {
    if run != [] {
      assert run[0] != Wake(c, true) && run[0] != Wake(c, false);
      StrandedStays(Apply(s, run[0]), c, run[1..]);
    }
  }

  /** Some step of the run disturbs the closer while it is registered. */
  ghost predicate Disturbed(s: State, run: seq<Step>, c: Closer)
    requires Legal(s, run)
    decreases |run|
  {
    && run != [] && s.onIdle == Some(c)
    && (Disturbs(run[0], c) || Disturbed(Apply(s, run[0]), run[1..], c))
  }

  predicate Woken(s: State, c: Closer) {
    c in s.calls && s.calls[c].Waiting? && c in s.idle
  }

  lemma {:induction false} WokenStays(s: State, c: Closer, run: seq<Step>)
    requires Legal(s, run) && Woken(s, c) && Wake(c, true) !in run && Wake(c, false) !in run
    ensures Woken(Execute(s, run), c)
    decreases |run|
  {
    if run != [] {
      assert run[0] != Wake(c, true) && run[0] != Wake(c, false);
      WokenStays(Apply(s, run[0]), c, run[1..]);
    }
  }

  lemma {:induction false} RegistrationFate(s: State, run: seq<Step>, c: Closer)
    requires Inv(s) && s.onIdle == Some(c) && Legal(s, run)
    requires Wake(c, true) !in run && Wake(c, false) !in run
    ensures var t := Execute(s, run);
            if Disturbed(s, run, c) then Pending(t, c) && t.onIdle != Some(c)
            else Woken(t, c) || (Pending(t, c) && t.onIdle == Some(c))
    decreases |run|
  {
    if run != [] {
      var step, next := run[0], Apply(s, run[0]);
      assert step != Wake(c, true) && step != Wake(c, false);
      StepKeepsInv(s, step);
      RegistrationLost(s, step, c);
      if Disturbs(step, c) {
        StrandedStays(next, c, run[1..]);
      } else if next.onIdle == Some(c) {
        RegistrationFate(next, run[1..], c);
      } else {
        assert !Disturbed(next, run[1..], c);
        WokenStays(next, c, run[1..]);
      }
    }
  }

  /**
   Over every run in which a registered closer has not returned: it is stranded, out of reach of every
   release, if and only if another close started or returned while it was registered. Otherwise it has
   been woken, or an admitted request it waits for is still in flight.
   */
  lemma {:induction false} StrandedExactly(s: State, run: seq<Step>, c: Closer)
    requires Inv(s) && s.onIdle == Some(c) && Legal(s, run)
    requires Wake(c, true) !in run && Wake(c, false) !in run
    ensures var t := Execute(s, run);
            && (Pending(t, c) && t.onIdle != Some(c) <==> Disturbed(s, run, c))
            && (!Disturbed(s, run, c) ==> Enabled(t, Wake(c, false)) || Live(t.tickets) != {})
  {
    RegistrationFate(s, run, c);
    RunKeepsInv(s, run);
  }

  /** So a close that starts while another waits strands the first. */
  lemma {:induction false} OverlapStrands(s: State, c: Closer, d: Closer, run: seq<Step>)
    requires Inv(s) && s.onIdle == Some(c) && d !in s.calls && Legal(Apply(s, Close(d)), run)
    requires Wake(c, true) !in run
    ensures var t := Execute(Apply(s, Close(d)), run);
            Pending(t, c) && !Enabled(t, Wake(c, false))
  {
    RegistrationLost(s, Close(d), c);
    StrandedStays(Apply(s, Close(d)), c, run);
  }

  /** And a close that wakes while a later one waits strands the later one. */
  lemma {:induction false} LateWakeStrands(s: State, c: Closer, d: Closer, timedOut: bool, run: seq<Step>)
    requires Inv(s) && s.onIdle == Some(c) && d != c && Enabled(s, Wake(d, timedOut))
    requires Legal(Apply(s, Wake(d, timedOut)), run) && Wake(c, true) !in run
    ensures var t := Execute(Apply(s, Wake(d, timedOut)), run);
            Pending(t, c) && !Enabled(t, Wake(c, false))
  {
    RegistrationLost(s, Wake(d, timedOut), c);
    StrandedStays(Apply(s, Wake(d, timedOut)), c, run);
  }

  /** A waiting close that nothing but its deadline can wake. */
  lemma {:induction false} OverlapExample()
    ensures exists run :: Legal(INIT, run)
              && var s := Execute(INIT, run); Live(s.tickets) == {} && Pending(s, 1) && !Enabled(s, Wake(1, false))
  {
    var run := [Enter(0), Close(1), Close(2), Release(0)];
    var s1 := Apply(INIT, Enter(0));
    var s2 := Apply(s1, Close(1));
    var s3 := Apply(s2, Close(2));
    var s4 := Apply(s3, Release(0));
    assert run[1..] == [Close(1), Close(2), Release(0)];
    assert run[1..][1..] == [Close(2), Release(0)];
    assert run[1..][1..][1..] == [Release(0)];
    assert run[1..][1..][1..][1..] == [];
    assert Legal(s4, []);
    assert Legal(s3, [Release(0)]) && Execute(s3, [Release(0)]) == s4;
    assert Legal(s2, [Close(2), Release(0)]) && Execute(s2, [Close(2), Release(0)]) == s4;
    assert Legal(s1, [Close(1), Close(2), Release(0)]);
    assert Legal(INIT, run) && Execute(INIT, run) == s4;
  }

  lemma {:induction false} LegalStep(s: State, step: Step, run: seq<Step>)
    requires Enabled(s, step) && Legal(Apply(s, step), run)
    ensures Legal(s, [step] + run) && Execute(s, [step] + run) == Execute(Apply(s, step), run)
  {
    assert ([step] + run)[1..] == run;
  }

  /** The first closer is resolved but has not returned when the latch is opened and closed again. */
  lemma {:induction false} ReclosedEarly() returns (run: seq<Step>)
    ensures Legal(INIT, run)
    ensures Execute(INIT, run)
            == State(false, 1, Some(3), map[0 := true, 2 := false], {1}, map[1 := Waiting, 3 := Waiting])
  {
    var s1 := State(true, 1, None, map[0 := false], {}, map[]);
    var s2 := State(false, 1, Some(1), map[0 := false], {}, map[1 := Waiting]);
    var s3 := State(false, 0, None, map[0 := true], {1}, map[1 := Waiting]);
    var s4 := s3.(admitting := true);
    var s5 := State(true, 1, None, map[0 := true, 2 := false], {1}, map[1 := Waiting]);
    assert Apply(INIT, Enter(0)) == s1 && Apply(s1, Close(1)) == s2 && Apply(s2, Release(0)) == s3;
    assert Apply(s4, Enter(2)) == s5;
    LegalStep(s5, Close(3), []);
    LegalStep(s4, Enter(2), [Close(3)] + []);
    LegalStep(s3, Open, [Enter(2)] + ([Close(3)] + []));
    LegalStep(s2, Release(0), [Open] + ([Enter(2)] + ([Close(3)] + [])));
    LegalStep(s1, Close(1), [Release(0)] + ([Open] + ([Enter(2)] + ([Close(3)] + []))));
    LegalStep(INIT, Enter(0), [Close(1)] + ([Release(0)] + ([Open] + ([Enter(2)] + ([Close(3)] + [])))));
    run := [Enter(0)] + ([Close(1)] + ([Release(0)] + ([Open] + ([Enter(2)] + ([Close(3)] + [])))));
  }

  lemma {:induction false} RunAppend(s: State, a: seq<Step>, b: seq<Step>)
    requires Legal(s, a) && Legal(Execute(s, a), b)
    ensures Legal(s, a + b) && Execute(s, a + b) == Execute(Execute(s, a), b)
    decreases |a|
  {
    if a == [] {
      assert a + b == b;
    } else {
      RunAppend(Apply(s, a[0]), a[1..], b);
      assert (a + b)[0] == a[0] && (a + b)[1..] == a[1..] + b;
    }
  }

  /** A run in which the first closer was woken and the second is then stranded by its return. */
  lemma {:induction false} LateWakeExample() returns (run: seq<Step>)
    ensures Legal(INIT, run)
    ensures var s := Execute(INIT, run); Live(s.tickets) == {} && Pending(s, 3) && !Enabled(s, Wake(3, false))
  {
    var first := ReclosedEarly();
    var s6 := Execute(INIT, first);
    var s7 := Apply(s6, Wake(1, false));
    LegalStep(s7, Release(2), []);
    LegalStep(s6, Wake(1, false), [Release(2)] + []);
    run := first + ([Wake(1, false)] + ([Release(2)] + []));
    RunAppend(INIT, first, [Wake(1, false)] + ([Release(2)] + []));
  }

  // ---------------------------------------------------------------- drained means drained

  lemma {:induction false} DrainedStays(s: State, c: Closer, run: seq<Step>)
    requires Inv(s) && Legal(s, run) && Open !in run
    requires !s.admitting && c in s.calls
    requires s.calls[c].Returned? && s.calls[c].drained ==> s.inFlight == 0
    ensures var t := Execute(s, run);
            && c in t.calls && !t.admitting
            && (t.calls[c].Returned? && t.calls[c].drained ==> t.inFlight == 0)
    decreases |run|
  {
    if run != [] {
      StepKeepsInv(s, run[0]);
      if run[0].Release? && s.inFlight == 0 {
        assert Live(s.tickets) == {};
        assert run[0].t !in Live(s.tickets);
      }
      DrainedStays(Apply(s, run[0]), c, run[1..]);
    }
  }

  /**
   Once a close has answered `drained: true`, nothing is in flight at any moment until the latch
   is opened, whatever requests arrive and however many closers there are.
   */
  lemma {:induction false} DrainedUntilOpen(before: seq<Step>, c: Closer, after: seq<Step>)
    requires Legal(INIT, before) && Enabled(Execute(INIT, before), Close(c))
    requires Legal(Apply(Execute(INIT, before), Close(c)), after) && Open !in after
    ensures var s := Execute(Apply(Execute(INIT, before), Close(c)), after);
            && c in s.calls
            && (s.calls[c].Returned? && s.calls[c].drained ==> Live(s.tickets) == {} && !s.admitting)
  {
    RunKeepsInv(INIT, before);
    var s := Execute(INIT, before);
    StepKeepsInv(s, Close(c));
    DrainedStays(Apply(s, Close(c)), c, after);
    RunKeepsInv(Apply(s, Close(c)), after);
  }
}
