/**
 Leases and the background loops that run under them.

 `lease.acquire` grants a free, lapsed or own lease; `underLease` asks for one and runs its
 job only when granted. Nothing ever releases a lease early, so what keeps two nodes out of
 one job is the expiry alone.
 */
module Lease {
  datatype Grant = Grant(holder: string, expiresAt: int)

  type Leases = map<string, Grant>

  predicate Grantable(leases: Leases, name: string, holder: string, at: int) {
    name !in leases || leases[name].holder == holder || leases[name].expiresAt <= at
  }

  function AcquireLease(leases: Leases, name: string, holder: string, ttl: int, at: int): Leases {
    if Grantable(leases, name, holder, at) then leases[name := Grant(holder, at + ttl)] else leases
  }

  function ReleaseLease(leases: Leases, name: string, holder: string): Leases {
    if name in leases && leases[name].holder == holder then leases - {name} else leases
  }

  class LeaseTable {
    var leases: Leases

    constructor ()
      ensures leases == map[]
    {
      leases := map[];
    }

    method Acquire(name: string, holder: string, ttl: int, at: int) returns (granted: bool)
      modifies this
      ensures granted <==> Grantable(old(leases), name, holder, at)
      ensures leases == AcquireLease(old(leases), name, holder, ttl, at)
    {
      if name in leases && leases[name].holder != holder && leases[name].expiresAt > at {
        return false;
      }
      leases := leases[name := Grant(holder, at + ttl)];
      granted := true;
    }

    method Release(name: string, holder: string)
      modifies this
      ensures leases == ReleaseLease(old(leases), name, holder)
    {
      if name in leases && leases[name].holder == holder {
        leases := leases - {name};
      }
    }
  }

  /** The stretch of `underLease` before its job: a process without a coordinator just runs. */
  method UnderLease(table: LeaseTable?, node: string, name: string, ttl: int, at: int) returns (runs: bool)
    modifies table
    ensures table == null ==> runs
    ensures table != null ==>
      (runs <==> Grantable(old(table.leases), name, node, at))
      && table.leases == AcquireLease(old(table.leases), name, node, ttl, at)
  {
    if table != null {
      runs := table.Acquire(name, node, ttl, at);
    } else {
      runs := true;
    }
  }

  // ---------------------------------------------------------------- a fleet

  /** One tick of a background loop that was granted its lease: when, and whether its job has begun. */
  datatype Job = Job(node: string, name: string, grantedAt: int, ttl: int, begun: bool)

  datatype Fleet = Fleet(now: int, leases: Leases, jobs: map<nat, Job>)

  /**
   Time passing, a loop asking for its lease, a granted loop resuming into its job, a job
   ending. The coordinator answers in the step that asks; the job starts in a later one.
   */
  datatype Step =
    | Pass(to: int)
    | Ask(id: nat, node: string, name: string, ttl: int)
    | Begin(id: nat)
    | End(id: nat)

  const START: Fleet := Fleet(0, map[], map[])

  /**
   The fleet's discipline: the clock moves forward, every TTL is positive, and no job is still going
   when the time since its grant reaches its TTL.
   */
  predicate Enabled(f: Fleet, step: Step) {
    match step
    case Pass(to) =>
      f.now <= to && forall id :: id in f.jobs ==> to < Deadline(f.jobs[id])
    case Ask(id, _, _, ttl) => id !in f.jobs && ttl > 0
    case Begin(id) => id in f.jobs && !f.jobs[id].begun
    case End(id) => id in f.jobs && f.jobs[id].begun
  }

  function Deadline(job: Job): int {
    job.grantedAt + job.ttl
  }

  function Apply(f: Fleet, step: Step): Fleet {
    match step
    case Pass(to) => f.(now := to)
    case Ask(id, node, name, ttl) =>
      f.(leases := AcquireLease(f.leases, name, node, ttl, f.now),
         jobs := if Grantable(f.leases, name, node, f.now)
                 then f.jobs[id := Job(node, name, f.now, ttl, false)] else f.jobs)
    case Begin(id) => if id in f.jobs then f.(jobs := f.jobs[id := f.jobs[id].(begun := true)]) else f
    case End(id) => f.(jobs := f.jobs - {id})
  }

  ghost predicate Legal(f: Fleet, run: seq<Step>)
    decreases |run|
  {
    run == [] || (Enabled(f, run[0]) && Legal(Apply(f, run[0]), run[1..]))
  }

  function Execute(f: Fleet, run: seq<Step>): Fleet
    decreases |run|
  {
    if run == [] then f else Execute(Apply(f, run[0]), run[1..])
  }

  ghost predicate OneNodePerLease(f: Fleet) {
    forall i, j :: i in f.jobs && j in f.jobs && f.jobs[i].name == f.jobs[j].name ==>
      f.jobs[i].node == f.jobs[j].node
  }

  // ---------------------------------------------------------------- when the fleet is safe

  /** An ask does not cut short the lease of a job that its own node still runs. */
  ghost predicate Covers(f: Fleet, step: Step) {
    step.Ask? ==>
      forall id :: id in f.jobs && f.jobs[id].node == step.node && f.jobs[id].name == step.name ==>
        Deadline(f.jobs[id]) <= f.now + step.ttl
  }

  ghost predicate Covered(f: Fleet, run: seq<Step>)
    decreases |run|
  {
    run == [] || (Covers(f, run[0]) && Covered(Apply(f, run[0]), run[1..]))
  }

  /** Every job that was granted and has not ended is covered by a lease its own node holds. */
  ghost predicate Inv(f: Fleet) {
    forall id :: id in f.jobs ==>
      var job := f.jobs[id];
      && job.grantedAt <= f.now < Deadline(job)
      && job.name in f.leases && f.leases[job.name].holder == job.node
      && Deadline(job) <= f.leases[job.name].expiresAt
  }

  lemma {:induction false} StepKeepsInv(f: Fleet, step: Step)
    requires Inv(f) && Enabled(f, step) && Covers(f, step)
    ensures Inv(Apply(f, step))
  {
  }

  lemma {:induction false} RunKeepsInv(f: Fleet, run: seq<Step>)
    requires Inv(f) && Legal(f, run) && Covered(f, run)
    ensures Inv(Execute(f, run))
    decreases |run|
  {
    if run != [] {
      StepKeepsInv(f, run[0]);
      RunKeepsInv(Apply(f, run[0]), run[1..]);
    }
  }

  /** Whenever no ask cuts a running job of its own node short, two nodes are never inside one lease's job. */
  lemma {:induction false} CoveredRunsAreSafe(run: seq<Step>)
    requires Legal(START, run) && Covered(START, run)
    ensures OneNodePerLease(Execute(START, run))
  {
    RunKeepsInv(START, run);
  }

  // ---------------------------------------------------------------- one TTL per name

  predicate OneTtl(run: seq<Step>, ttlOf: string -> int) {
    forall i :: 0 <= i < |run| && run[i].Ask? ==> run[i].ttl == ttlOf(run[i].name)
  }

  predicate JobTtls(f: Fleet, ttlOf: string -> int) {
    forall id :: id in f.jobs ==> f.jobs[id].ttl == ttlOf(f.jobs[id].name)
  }

  lemma {:induction false} OneTtlCovers(f: Fleet, run: seq<Step>, ttlOf: string -> int)
    requires Inv(f) && JobTtls(f, ttlOf) && Legal(f, run) && OneTtl(run, ttlOf)
    ensures Covered(f, run)
    decreases |run|
  {
    if run != [] {
      assert run[0].Ask? ==> run[0].ttl == ttlOf(run[0].name);
      StepKeepsInv(f, run[0]);
      OneTtlCovers(Apply(f, run[0]), run[1..], ttlOf);
    }
  }

  /** In particular, over every run of a fleet with one TTL per lease name. */
  lemma {:induction false} LeaseSafety(run: seq<Step>, ttlOf: string -> int)
    requires Legal(START, run) && OneTtl(run, ttlOf)
    ensures OneNodePerLease(Execute(START, run))
  {
    OneTtlCovers(START, run, ttlOf);
    CoveredRunsAreSafe(run);
  }

  // ---------------------------------------------------------------- and when it is not

  lemma {:induction false} RunAppend(f: Fleet, a: seq<Step>, b: seq<Step>)
    requires Legal(f, a) && Covered(f, a) && Legal(Execute(f, a), b) && Covered(Execute(f, a), b)
    ensures Legal(f, a + b) && Covered(f, a + b) && Execute(f, a + b) == Execute(Execute(f, a), b)
    decreases |a|
  {
    if a == [] {
      assert a + b == b;
    } else {
      RunAppend(Apply(f, a[0]), a[1..], b);
      assert (a + b)[0] == a[0] && (a + b)[1..] == a[1..] + b;
    }
  }

  /** A job that was granted can begin, if it has not, and end. */
  lemma {:induction false} EndOne(f: Fleet, id: nat) returns (run: seq<Step>)
    requires id in f.jobs
    ensures Legal(f, run) && Covered(f, run) && Execute(f, run) == f.(jobs := f.jobs - {id})
  {
    if f.jobs[id].begun {
      run := [End(id)];
      OneStep(f, End(id));
    } else {
      var begun := Apply(f, Begin(id));
      OneStep(f, Begin(id));
      OneStep(begun, End(id));
      run := [Begin(id)] + [End(id)];
      RunAppend(f, [Begin(id)], [End(id)]);
      assert begun.jobs - {id} == f.jobs - {id};
    }
  }

  lemma {:induction false} OneStep(f: Fleet, step: Step)
    requires Enabled(f, step) && Covers(f, step)
    ensures Legal(f, [step]) && Covered(f, [step]) && Execute(f, [step]) == Apply(f, step)
  {
    assert [step][1..] == [];
  }

  /** Every job but one can end before any time passes. */
  lemma {:induction false} EndOthers(f: Fleet, keep: nat) returns (run: seq<Step>)
    requires keep in f.jobs
    ensures Legal(f, run) && Covered(f, run) && Execute(f, run) == f.(jobs := map[keep := f.jobs[keep]])
    decreases |f.jobs|
  {
    if id :| id in f.jobs && id != keep {
      var first := EndOne(f, id);
      var g := f.(jobs := f.jobs - {id});
      assert |g.jobs| < |f.jobs| by {
        assert g.jobs.Keys == f.jobs.Keys - {id};
      }
      var rest := EndOthers(g, keep);
      RunAppend(f, first, rest);
      run := first + rest;
    } else {
      run := [];
      assert f.jobs == map[keep := f.jobs[keep]];
    }
  }

  /** After an ask that cuts a running job's lease short, another node can get in beside that job. */
  lemma {:induction false} UncoveredAskAdmitsSecondNode(f: Fleet, step: Step, victim: nat) returns (run: seq<Step>)
    requires Inv(f) && Enabled(f, step) && step.Ask? && victim in f.jobs
    requires f.jobs[victim].node == step.node && f.jobs[victim].name == step.name
    requires f.now + step.ttl < Deadline(f.jobs[victim])
    ensures Legal(Apply(f, step), run) && Covered(Apply(f, step), run)
    ensures !OneNodePerLease(Execute(Apply(f, step), run))
  {
    var job, expiry := f.jobs[victim], f.now + step.ttl;
    var asked := Apply(f, step);
    var ends := EndOthers(asked, victim);
    var alone := asked.(jobs := map[victim := job]);
    var late := alone.(now := expiry);
    OneStep(alone, Pass(expiry));
    var intruder := Ask(victim + 1, step.node + "'", step.name, 1);
    OneStep(late, intruder);
    RunAppend(alone, [Pass(expiry)], [intruder]);
    RunAppend(asked, ends, [Pass(expiry)] + [intruder]);
    run := ends + ([Pass(expiry)] + [intruder]);
    var last := Apply(late, intruder);
    assert last.jobs[victim].node == step.node && last.jobs[victim + 1].node == step.node + "'";
    assert |step.node + "'"| != |step.node|;
  }

  /**
   The exact condition, for any ask from any state the discipline keeps safe: every continuation in
   which later asks cut no running job short is safe if and only if this ask cuts none short.
   */
  lemma {:induction false} SafeIffCovered(f: Fleet, step: Step)
    requires Inv(f) && Enabled(f, step) && step.Ask?
    ensures Covers(f, step) <==>
            forall run :: Legal(Apply(f, step), run) && Covered(Apply(f, step), run) ==>
              OneNodePerLease(Execute(Apply(f, step), run))
  {
    var g := Apply(f, step);
    if Covers(f, step) {
      StepKeepsInv(f, step);
      forall run | Legal(g, run) && Covered(g, run)
        ensures OneNodePerLease(Execute(g, run))
      {
        RunKeepsInv(g, run);
      }
    } else {
      var victim :| victim in f.jobs && f.jobs[victim].node == step.node && f.jobs[victim].name == step.name
                    && Deadline(f.jobs[victim]) > f.now + step.ttl;
      var run := UncoveredAskAdmitsSecondNode(f, step, victim);
    }
  }

  /**
   Concretely: a node that asks again with a shorter TTL, and finishes that tick in time, has cut its
   still-running first job's lease short, and another node is let in beside it.
   */
  lemma {:induction false} ShorterRenewalAdmitsSecondNode()
    ensures
      var f1 := Apply(START, Ask(0, "a", "poll", 100));
      var f2 := Apply(f1, Ask(1, "a", "poll", 10));
      var f3 := Apply(f2, Begin(1));
      var f4 := Apply(f3, End(1));
      var f5 := Apply(f4, Pass(10));
      var f6 := Apply(f5, Ask(2, "b", "poll", 100));
      && Enabled(START, Ask(0, "a", "poll", 100)) && Enabled(f1, Ask(1, "a", "poll", 10))
      && Enabled(f2, Begin(1)) && Enabled(f3, End(1)) && Enabled(f4, Pass(10))
      && Enabled(f5, Ask(2, "b", "poll", 100))
      && !OneNodePerLease(f6)
  {
    var f1 := Fleet(0, map["poll" := Grant("a", 100)], map[0 := Job("a", "poll", 0, 100, false)]);
    assert Apply(START, Ask(0, "a", "poll", 100)) == f1;
    var f2 := Fleet(0, map["poll" := Grant("a", 10)], f1.jobs[1 := Job("a", "poll", 0, 10, false)]);
    assert Apply(f1, Ask(1, "a", "poll", 10)) == f2;
    var f5 := Fleet(10, f2.leases, f1.jobs);
    assert Apply(Apply(Apply(f2, Begin(1)), End(1)), Pass(10)) == f5;
    var f6 := Apply(f5, Ask(2, "b", "poll", 100));
    assert f6.jobs[0].node == "a" && f6.jobs[2].node == "b";
    assert "a"[0] != "b"[0];
  }
}
