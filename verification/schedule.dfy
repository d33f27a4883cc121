/** The master loop of util/batch_peak2cxi.py and util/batch_peak_powder.py:
    saturate every worker, refill finished workers until the cursor passes
    the last job (writing a stats update after each pass whose cursor is a
    multiple of `update_freq`, where the master has one), then drain: pass
    over the waiting workers, stopping each finished one, until a pass
    finds every one of them finished. Stopped workers leave the set before
    every pass (`slaves -= finished_slaves`). */
module Schedule {
  import opened Common
  import opened Dispatch
  import opened Passes

  /** What the environment decides for one pass: the order in which the
      set yields the waiting workers (see `Passes.Arrange`) and which of them
      have finished by the time they are tested. */
  datatype Round = Round(hint: seq<nat>, done: set<nat>)

  datatype End = Finished(m: Master) | Stalled(m: Master) | Crashed(fault: Fault)

  /** How a run ended, and the master after every pass that triggered a
      periodic stats update. */
  datatype Run = Run(end: End, checkpoints: seq<Master>)

  /** n workers, nbJobs jobs, whether saturation falls back to the empty
      dummy job, and `update_freq` where the master writes periodic stats. */
  datatype Plan = Plan(n: nat, nbJobs: nat, dummies: bool, freq: Option<int>)

  /** `if job_id % update_freq == 0`; a zero frequency raises
      ZeroDivisionError. Python's `%` floors and Dafny's is Euclidean, but
      both give 0 exactly when the frequency divides the cursor. */
  function Periodic(freq: Option<int>, cursor: nat): (r: Result<bool, Fault>)
    ensures r.Err? <==> freq == Some(0)
    ensures r.Err? ==> r.error == ModuloByZero
  {
    match freq
    case None => Ok(false)
    case Some(f) => if f == 0 then Err(ModuloByZero) else Ok(cursor % f == 0)
  }

  /** The whole master run, passes drawn from `rounds` in order; running
      out of rounds leaves the run stalled. */
  function Launch(plan: Plan, hint: seq<nat>, rounds: seq<Round>): Run
  {
    match Saturate(plan.n, Order(hint, plan.n), plan.nbJobs, plan.dummies)
    case Err(e) => Run(Crashed(e), [])
    case Ok(m) => Refill(plan, m, rounds, 0, [])
  }

  /** `while job_id < nb_jobs:` one pass per round. */
  function Refill(plan: Plan, m: Master, rounds: seq<Round>, k: nat, cps: seq<Master>): Run
    decreases |rounds| - k
  {
    if m.cursor >= plan.nbJobs then Drain(plan, m, rounds, k, cps)
    else if k >= |rounds| then Run(Stalled(m), cps)
    else
      match Pass(m, Visit(m, rounds[k].hint), rounds[k].done, plan.nbJobs)
      case Err(e) => Run(Crashed(e), cps)
      case Ok(sw) =>
        match Periodic(plan.freq, sw.m.cursor)
        case Err(e) => Run(Crashed(e), cps)
        case Ok(fire) => Refill(plan, sw.m, rounds, k + 1, if fire then cps + [sw.m] else cps)
  }

  /** `while not all_done:` one pass per round. */
  function Drain(plan: Plan, m: Master, rounds: seq<Round>, k: nat, cps: seq<Master>): Run
    decreases |rounds| - k
  {
    if k >= |rounds| then Run(Stalled(m), cps)
    else
      match Pass(m, Visit(m, rounds[k].hint), rounds[k].done, plan.nbJobs)
      case Err(e) => Run(Crashed(e), cps)
      case Ok(sw) => if sw.allDone then Run(Finished(sw.m), cps) else Drain(plan, sw.m, rounds, k + 1, cps)
  }

  /** The master after each refill pass of `Refill`, appended to `done`, in
      pass order: the passes after which the source checks
      `job_id % update_freq`. The drain's passes are not among them. */
  function RefillMasters(plan: Plan, m: Master, rounds: seq<Round>, k: nat, done: seq<Master>): seq<Master>
    decreases |rounds| - k
  {
    if m.cursor >= plan.nbJobs || k >= |rounds| then done
    else
      match Pass(m, Visit(m, rounds[k].hint), rounds[k].done, plan.nbJobs)
      case Err(_) => done
      case Ok(sw) => RefillMasters(plan, sw.m, rounds, k + 1, done + [sw.m])
  }

  /** The refill passes of a whole run. */
  function LaunchMasters(plan: Plan, hint: seq<nat>, rounds: seq<Round>): seq<Master>
  {
    match Saturate(plan.n, Order(hint, plan.n), plan.nbJobs, plan.dummies)
    case Err(_) => []
    case Ok(m) => RefillMasters(plan, m, rounds, 0, [])
  }

  /** Whether the frequency divides a master's cursor. */
  function Divides(f: int): Master -> bool
  {
    (m: Master) => f != 0 && m.cursor % f == 0
  }

  predicate AllStopped(m: Master)
  {
    forall i :: 0 <= i < |m.slots| ==> m.slots[i].Stopped?
  }

  /** Between passes: the dispatch invariant, one slot per worker, and every
      worker sent a task. */
  ghost predicate Running(plan: Plan, m: Master)
  {
    && Inv(m, plan.nbJobs)
    && |m.slots| == plan.n
    && forall i :: 0 <= i < |m.slots| ==> !m.slots[i].Idle?
  }

  /** A periodic update comes from a pass whose cursor the frequency divides. */
  ghost predicate Checkpoints(plan: Plan, cps: seq<Master>)
  {
    |cps| > 0 ==>
      && plan.freq.Some? && plan.freq.value != 0
      && forall j :: 0 <= j < |cps| ==> cps[j].cursor % plan.freq.value == 0
  }

  /** What the loops promise: a finished run has stopped every worker after
      the cursor passed the last job; the loops themselves only fail on a
      zero update frequency. */
  ghost predicate Sound(plan: Plan, r: Run)
  {
    && (r.end.Finished? ==> Inv(r.end.m, plan.nbJobs) && AllStopped(r.end.m) && r.end.m.cursor >= plan.nbJobs)
    && (r.end.Finished? ==> |r.end.m.slots| == plan.n)
    && (r.end.Crashed? ==> r.end.fault == ModuloByZero && plan.freq == Some(0))
    && Checkpoints(plan, r.checkpoints)
  }

  /** One pass over the waiting workers keeps the master running. */
  lemma PassKeepsRunning(plan: Plan, m: Master, rd: Round)
    requires Running(plan, m)
    ensures Pass(m, Visit(m, rd.hint), rd.done, plan.nbJobs).Ok?
    ensures Running(plan, Pass(m, Visit(m, rd.hint), rd.done, plan.nbJobs).value.m)
  {
    var visit := Visit(m, rd.hint);
    PassNeverStale(m, visit, rd.done, plan.nbJobs);
    PassPreservesInv(m, visit, rd.done, plan.nbJobs);
  }

  /** A drain pass in which every waiting worker had finished leaves every
      worker stopped. */
  lemma AllDoneStopsAll(plan: Plan, m: Master, rd: Round)
    requires m.cursor >= plan.nbJobs
    requires forall i :: 0 <= i < |m.slots| ==> !m.slots[i].Idle?
    requires Pass(m, Visit(m, rd.hint), rd.done, plan.nbJobs).Ok?
    requires Pass(m, Visit(m, rd.hint), rd.done, plan.nbJobs).value.allDone
    ensures AllStopped(Pass(m, Visit(m, rd.hint), rd.done, plan.nbJobs).value.m)
  {
    var visit := Visit(m, rd.hint);
    PassStopsFinished(m, visit, rd.done, plan.nbJobs);
    var m' := Pass(m, visit, rd.done, plan.nbJobs).value.m;
    forall i | 0 <= i < |m.slots|
      ensures m'.slots[i].Stopped?
    {
      if m.slots[i].Busy? {
        assert BusyRank(m, i + 1);
        var k :| 0 <= k < |visit| && visit[k] == i + 1;
      }
    }
  }

  lemma {:induction false} DrainSound(plan: Plan, m: Master, rounds: seq<Round>, k: nat, cps: seq<Master>)
    requires Running(plan, m) && m.cursor >= plan.nbJobs
    requires Checkpoints(plan, cps)
    ensures Sound(plan, Drain(plan, m, rounds, k, cps))
    decreases |rounds| - k
  {
    if k < |rounds| {
      PassKeepsRunning(plan, m, rounds[k]);
      var sw := Pass(m, Visit(m, rounds[k].hint), rounds[k].done, plan.nbJobs).value;
      if sw.allDone {
        AllDoneStopsAll(plan, m, rounds[k]);
      } else {
        DrainSound(plan, sw.m, rounds, k + 1, cps);
      }
    }
  }

  /** One refill pass keeps the master running and records a checkpoint
      only when the frequency divides the cursor. */
  lemma RefillStep(plan: Plan, m: Master, rd: Round, cps: seq<Master>)
    requires Running(plan, m)
    requires Checkpoints(plan, cps)
    ensures Pass(m, Visit(m, rd.hint), rd.done, plan.nbJobs).Ok?
    ensures var m' := Pass(m, Visit(m, rd.hint), rd.done, plan.nbJobs).value.m;
      && Running(plan, m')
      && (Periodic(plan.freq, m'.cursor).Ok? ==>
            Checkpoints(plan, if Periodic(plan.freq, m'.cursor).value then cps + [m'] else cps))
  {
    PassKeepsRunning(plan, m, rd);
  }

  lemma {:induction false} RefillSound(plan: Plan, m: Master, rounds: seq<Round>, k: nat, cps: seq<Master>)
    requires Running(plan, m)
    requires Checkpoints(plan, cps)
    ensures Sound(plan, Refill(plan, m, rounds, k, cps))
    decreases |rounds| - k
  {
    if m.cursor >= plan.nbJobs {
      DrainSound(plan, m, rounds, k, cps);
    } else if k < |rounds| {
      RefillStep(plan, m, rounds[k], cps);
      var m' := Pass(m, Visit(m, rounds[k].hint), rounds[k].done, plan.nbJobs).value.m;
      var p := Periodic(plan.freq, m'.cursor);
      if p.Ok? {
        RefillSound(plan, m', rounds, k + 1, if p.value then cps + [m'] else cps);
      }
    }
  }

  /** Saturating with every worker in some order starts a running master
      in which every worker waits on a task. */
  lemma SaturationRuns(plan: Plan, hint: seq<nat>)
    requires Saturate(plan.n, Order(hint, plan.n), plan.nbJobs, plan.dummies).Ok?
    ensures Running(plan, Saturate(plan.n, Order(hint, plan.n), plan.nbJobs, plan.dummies).value)
  {
    var order := Order(hint, plan.n);
    SaturateSpec(plan.n, order, plan.nbJobs, plan.dummies);
    var m := Saturate(plan.n, order, plan.nbJobs, plan.dummies).value;
    OrderLength(order, plan.n);
    EveryRankReached(order, plan.n, m.slots);
  }

  /** When the k-th worker of a listing of 1..n is busy for every k, every
      worker is busy. */
  lemma EveryRankReached(order: seq<nat>, n: nat, slots: seq<Slot>)
    requires IsOrder(order, n) && |slots| == n
    requires forall k :: 0 <= k < |order| ==> slots[order[k] - 1].Busy?
    ensures forall i :: 0 <= i < |slots| ==> slots[i].Busy?
  {
    forall i | 0 <= i < |slots|
      ensures slots[i].Busy?
    {
      assert i + 1 in order;
      var k :| 0 <= k < |order| && order[k] == i + 1;
    }
  }

  /** The run is sound, and fails in saturation exactly when there are
      more workers than jobs and no dummy to send. */
  lemma LaunchSound(plan: Plan, hint: seq<nat>, rounds: seq<Round>)
    ensures var r := Launch(plan, hint, rounds);
      && (r.end.Finished? ==> Inv(r.end.m, plan.nbJobs) && AllStopped(r.end.m) && r.end.m.cursor >= plan.nbJobs)
      && (r.end.Finished? ==> |r.end.m.slots| == plan.n)
      && (r.end.Crashed? ==> (r.end.fault == ModuloByZero && plan.freq == Some(0)) || r.end.fault == JobIndexOutOfRange(plan.nbJobs))
      && (r.end == Crashed(JobIndexOutOfRange(plan.nbJobs)) <==> plan.n > plan.nbJobs && !plan.dummies)
      && Checkpoints(plan, r.checkpoints)
  {
    var order := Order(hint, plan.n);
    SaturateSpec(plan.n, order, plan.nbJobs, plan.dummies);
    var s := Saturate(plan.n, order, plan.nbJobs, plan.dummies);
    if s.Ok? {
      SaturationRuns(plan, hint);
      RefillSound(plan, s.value, rounds, 0, []);
    }
  }

  /** A finished run has addressed every message to a worker and handed
      out every job once, in order. */
  lemma FinishedLog(plan: Plan, hint: seq<nat>, rounds: seq<Round>)
    ensures var r := Launch(plan, hint, rounds);
      r.end.Finished? ==>
        && (forall k :: 0 <= k < |r.end.m.log| ==> 1 <= r.end.m.log[k].dest <= plan.n)
        && Filter(IsJob, Issued(r.end.m.log)) == JobList(plan.nbJobs)
  {
    LaunchSound(plan, hint, rounds);
  }

  /** With more workers than jobs and no dummy to send, saturation fails
      on the first worker past the last job. */
  lemma SurplusWorkersCrash(plan: Plan, hint: seq<nat>, rounds: seq<Round>)
    requires plan.n > plan.nbJobs && !plan.dummies
    ensures Launch(plan, hint, rounds).end == Crashed(JobIndexOutOfRange(plan.nbJobs))
  {
    LaunchSound(plan, hint, rounds);
  }

  /** The set-based master loop, whatever the workers' timing and the sets'
      iteration order: a finished run has stopped every worker and merged
      the result of every job exactly once, besides the dummy jobs; it
      fails only in saturation, exactly when there are more workers than
      jobs and no dummy to send, or on a zero update frequency; and every
      periodic update follows a pass whose cursor the frequency divides. */
  lemma RunMergesEachJobOnce(plan: Plan, hint: seq<nat>, rounds: seq<Round>)
    ensures var r := Launch(plan, hint, rounds);
      && (r.end.Finished? ==> |r.end.m.slots| == plan.n && AllStopped(r.end.m))
      && (r.end.Finished? ==> forall i: nat :: multiset(r.end.m.collected)[Job(i)] == if i < plan.nbJobs then 1 else 0)
      && (r.end.Finished? ==> multiset(Filter(IsJob, r.end.m.collected)) == multiset(JobList(plan.nbJobs)))
      && (r.end.Crashed? ==> (r.end.fault == ModuloByZero && plan.freq == Some(0)) || r.end.fault == JobIndexOutOfRange(plan.nbJobs))
      && (r.end == Crashed(JobIndexOutOfRange(plan.nbJobs)) <==> plan.n > plan.nbJobs && !plan.dummies)
      && (|r.checkpoints| > 0 ==>
            && plan.freq.Some? && plan.freq.value != 0
            && forall j :: 0 <= j < |r.checkpoints| ==> r.checkpoints[j].cursor % plan.freq.value == 0)
  {
    LaunchSound(plan, hint, rounds);
    var r := Launch(plan, hint, rounds);
    if r.end.Finished? {
      var m := r.end.m;
      assert Inv(m, plan.nbJobs) && AllStopped(m) && m.cursor >= plan.nbJobs;
      AllStoppedMergedEachJobOnce(m, plan.nbJobs);
    }
  }

  /** The drain writes no periodic update. */
  lemma {:induction false} DrainKeepsCheckpoints(plan: Plan, m: Master, rounds: seq<Round>, k: nat, cps: seq<Master>)
    ensures Drain(plan, m, rounds, k, cps).checkpoints == cps
    decreases |rounds| - k
  {
    if k < |rounds| {
      match Pass(m, Visit(m, rounds[k].hint), rounds[k].done, plan.nbJobs)
      case Err(_) =>
      case Ok(sw) =>
        if !sw.allDone {
          DrainKeepsCheckpoints(plan, sw.m, rounds, k + 1, cps);
        }
    }
  }

  /** With a non-zero frequency, the refill loop records the master after
      exactly those of its passes whose cursor the frequency divides, in
      pass order. */
  lemma {:induction false} RefillCheckpoints(plan: Plan, m: Master, rounds: seq<Round>, k: nat, cps: seq<Master>, done: seq<Master>)
    requires plan.freq.Some? && plan.freq.value != 0
    requires cps == Filter(Divides(plan.freq.value), done)
    ensures Refill(plan, m, rounds, k, cps).checkpoints == Filter(Divides(plan.freq.value), RefillMasters(plan, m, rounds, k, done))
    decreases |rounds| - k
  {
    if m.cursor >= plan.nbJobs {
      DrainKeepsCheckpoints(plan, m, rounds, k, cps);
    } else if k < |rounds| {
      match Pass(m, Visit(m, rounds[k].hint), rounds[k].done, plan.nbJobs)
      case Err(_) =>
      case Ok(sw) =>
        var p := Divides(plan.freq.value);
        var fire := sw.m.cursor % plan.freq.value == 0;
        assert Periodic(plan.freq, sw.m.cursor) == Ok(fire);
        assert (done + [sw.m])[..|done|] == done;
        assert Filter(p, done + [sw.m]) == if fire then cps + [sw.m] else cps;
        RefillCheckpoints(plan, sw.m, rounds, k + 1, if fire then cps + [sw.m] else cps, done + [sw.m]);
    }
  }

  /** The periodic updates of a run, in both directions: with a non-zero
      frequency the run records the master after every refill pass whose
      cursor the frequency divides and after no other pass; without a
      frequency it records none. */
  lemma LaunchCheckpoints(plan: Plan, hint: seq<nat>, rounds: seq<Round>)
    ensures plan.freq.Some? && plan.freq.value != 0 ==>
      Launch(plan, hint, rounds).checkpoints == Filter(Divides(plan.freq.value), LaunchMasters(plan, hint, rounds))
    ensures plan.freq.None? ==> Launch(plan, hint, rounds).checkpoints == []
  {
    LaunchSound(plan, hint, rounds);
    var s := Saturate(plan.n, Order(hint, plan.n), plan.nbJobs, plan.dummies);
    if s.Ok? && plan.freq.Some? && plan.freq.value != 0 {
      RefillCheckpoints(plan, s.value, rounds, 0, [], []);
    }
  }
}
