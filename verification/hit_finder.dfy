/** The master of batch_hit_finder.py, as written and corrected. The jobs
    come from `collect_jobs` (util/__init__.py is not part of this model),
    so they are an input; each worker returns its job annotated with peak
    counts (`Worker.Annotated`).

    As written the master keeps the workers in a list: every main-loop
    pass tests every worker in the list, and the drain removes finished
    workers from the list while iterating over it. The corrected master
    is the set-based loop of `Schedule`, with the workers taken in
    ascending order, and stats that report an empty result list instead
    of failing on it. */
module HitFinder {
  import opened Common
  import opened Units
  import opened Worker
  import opened Dispatch
  import opened Passes
  import Schedule

  /** The fields of `stat.yml` the model keeps; the hit rate is
      `hits / frames`, and times and durations are left out. */
  datatype Progress = Percent(cursor: nat, total: nat) | Done
  datatype Snapshot = Snapshot(progress: Progress, hits: nat, frames: nat, totalJobs: nat)

  datatype Failure =
    | Protocol(fault: Fault)
    | NoRecords   // `df['nb_peak']` on a DataFrame built from no records: KeyError

  datatype Outcome =
    | Exited                                            // fewer than two processes
    | Completed(m: Master, results: seq<Record>, final: Snapshot)
    | Stalled(m: Master)                                // the rounds ran out first
    | Crashed(failure: Failure)

  /** The outcome and the periodic `stat.yml` updates written before it. */
  datatype HitRun = HitRun(outcome: Outcome, snapshots: seq<Snapshot>)

  /** n workers, the jobs, the peak finder, `min peak num` and `--update-freq`. */
  datatype Setup = Setup(n: nat, jobs: seq<seq<Frame>>, kernel: Kernel, minPeak: int, freq: int)

  /** The records a finished task sends back; the powder dummy job is never
      sent here, and sends back nothing. */
  function Payload(jobs: seq<seq<Frame>>, kernel: Kernel): Task -> seq<Record>
  {
    (t: Task) => if t.Job? && t.index < |jobs| then Annotated(jobs[t.index], kernel) else []
  }

  /** `results`: the records of the tasks in the order they were merged. */
  function Results(jobs: seq<seq<Frame>>, kernel: Kernel, merged: seq<Task>): seq<Record>
  {
    Gather(Payload(jobs, kernel), merged)
  }

  /** The records of every job, job by job: what a sequential run would
      produce. */
  function InOrder(jobs: seq<seq<Frame>>, kernel: Kernel): seq<Record>
  {
    Results(jobs, kernel, JobList(|jobs|))
  }

  /** The stats as written: a DataFrame without records has no `nb_peak`
      column. */
  function Stats(minPeak: int, results: seq<Record>, progress: Progress, nbJobs: nat): (r: Result<Snapshot, Failure>)
    ensures r.Err? <==> |results| == 0
    ensures r.Err? ==> r.error == NoRecords
    ensures r.Ok? ==> r.value.hits <= r.value.frames
  {
    if |results| == 0 then Err(NoRecords)
    else Ok(Snapshot(progress, |Hits(minPeak, results)|, |results|, nbJobs))
  }

  /** The stats as intended: zero hits among zero frames when nothing has
      come back yet. */
  function Tally(minPeak: int, results: seq<Record>, progress: Progress, nbJobs: nat): (s: Snapshot)
    ensures s.hits <= s.frames
    ensures |results| > 0 ==> Stats(minPeak, results, progress, nbJobs) == Ok(s)
  {
    Snapshot(progress, |Hits(minPeak, results)|, |results|, nbJobs)
  }

  predicate Listed(m: Master, list: seq<nat>)
  {
    forall k :: 0 <= k < |list| ==> 1 <= list[k] <= |m.slots|
  }

  /** `slaves = list(range(1, size))`. */
  function Workers(n: nat): (list: seq<nat>)
    ensures |list| == n
    ensures forall k :: 0 <= k < n ==> list[k] == k + 1
  {
    Interval(1, n + 1)
  }

  /** The main loop as written: every pass tests every worker of the list,
      stopped or not. */
  function Refill(s: Setup, m: Master, dones: seq<set<nat>>, k: nat, snaps: seq<Snapshot>): HitRun
    requires |m.slots| == s.n
    decreases |dones| - k, 1
  {
    if m.cursor >= |s.jobs| then Sweep(s, m, Workers(s.n), dones, k, snaps)
    else if k >= |dones| then HitRun(Stalled(m), snaps)
    else
      match Pass(m, Workers(s.n), dones[k], |s.jobs|)
      case Err(e) => HitRun(Crashed(Protocol(e)), snaps)
      case Ok(sw) =>
        match Schedule.Periodic(Some(s.freq), sw.m.cursor)
        case Err(e) => HitRun(Crashed(Protocol(e)), snaps)
        case Ok(fire) =>
          if !fire then Refill(s, sw.m, dones, k + 1, snaps)
          else
            var results := Results(s.jobs, s.kernel, sw.m.collected);
            match Stats(s.minPeak, results, Percent(sw.m.cursor, |s.jobs|), |s.jobs|)
            case Err(f) => HitRun(Crashed(f), snaps)
            case Ok(snap) => Refill(s, sw.m, dones, k + 1, snaps + [snap])
  }

  /** What a drain pass leaves: the master, the list, and `all_done`. */
  datatype Drained = Drained(m: Master, list: seq<nat>, allDone: bool)

  /** A drain pass as written, from position i of the list: a finished
      worker is removed from the list being iterated, so the pass goes on
      at position i + 1 of the shortened list and never tests the worker
      that moved into position i. */
  function SweepList(m: Master, list: seq<nat>, i: nat, done: set<nat>, nbJobs: nat, allDone: bool): (r: Result<Drained, Fault>)
    requires Listed(m, list)
    ensures r.Ok? ==> |r.value.m.slots| == |m.slots| && Listed(r.value.m, r.value.list)
    ensures r.Ok? ==> forall x :: x in r.value.list ==> x in list
    decreases |list| - i
  {
    if i >= |list| then Ok(Drained(m, list, allDone))
    else
      var r := list[i];
      match Poll(m, r, done, nbJobs)
      case Err(e) => Err(e)
      case Ok(sw) =>
        if sw.allDone then SweepList(sw.m, list[..i] + list[i + 1..], i + 1, done, nbJobs, allDone)
        else SweepList(m, list, i + 1, done, nbJobs, false)
  }

  /** `while not all_done:` over the shrinking list. */
  function Sweep(s: Setup, m: Master, list: seq<nat>, dones: seq<set<nat>>, k: nat, snaps: seq<Snapshot>): HitRun
    requires Listed(m, list)
    decreases |dones| - k, 0
  {
    if k >= |dones| then HitRun(Stalled(m), snaps)
    else
      match SweepList(m, list, 0, dones[k], |s.jobs|, true)
      case Err(e) => HitRun(Crashed(Protocol(e)), snaps)
      case Ok(w) => if w.allDone then Finish(s, w.m, snaps) else Sweep(s, w.m, w.list, dones, k + 1, snaps)
  }

  /** The final `stat.yml`. */
  function Finish(s: Setup, m: Master, snaps: seq<Snapshot>): HitRun
  {
    var results := Results(s.jobs, s.kernel, m.collected);
    match Stats(s.minPeak, results, Done, |s.jobs|)
    case Err(f) => HitRun(Crashed(f), snaps)
    case Ok(final) => HitRun(Completed(m, results, final), snaps)
  }

  /** `master_run` as written; `dones[k]` holds the ranks whose request has
      completed when pass k tests it. */
  function Run(s: Setup, dones: seq<set<nat>>): HitRun
  {
    if s.n == 0 then HitRun(Exited, [])
    else
      match Saturate(s.n, Workers(s.n), |s.jobs|, false)
      case Err(e) => HitRun(Crashed(Protocol(e)), [])
      case Ok(m) => Refill(s, m, dones, 0, [])
  }

  /** Each pass of the corrected master takes the waiting workers in
      ascending order. */
  function Ascending(dones: seq<set<nat>>): (rounds: seq<Schedule.Round>)
    ensures |rounds| == |dones|
    ensures forall k :: 0 <= k < |dones| ==> rounds[k] == Schedule.Round([], dones[k])
  {
    seq(|dones|, k requires 0 <= k < |dones| => Schedule.Round([], dones[k]))
  }

  function Plan(s: Setup): Schedule.Plan
  {
    Schedule.Plan(s.n, |s.jobs|, false, Some(s.freq))
  }

  /** `master_run` corrected: the set-based loop, and stats that accept an
      empty result list. */
  function CorrectedRun(s: Setup, dones: seq<set<nat>>): HitRun
  {
    if s.n == 0 then HitRun(Exited, [])
    else
      var r := Schedule.Launch(Plan(s), [], Ascending(dones));
      var snaps := seq(|r.checkpoints|, j requires 0 <= j < |r.checkpoints| =>
        Tally(s.minPeak, Results(s.jobs, s.kernel, r.checkpoints[j].collected),
              Percent(r.checkpoints[j].cursor, |s.jobs|), |s.jobs|));
      match r.end
      case Finished(m) =>
        var results := Results(s.jobs, s.kernel, m.collected);
        HitRun(Completed(m, results, Tally(s.minPeak, results, Done, |s.jobs|)), snaps)
      case Stalled(m) => HitRun(Stalled(m), snaps)
      case Crashed(f) => HitRun(Crashed(Protocol(f)), snaps)
  }

  /** Merging every job exactly once, in any order, yields a permutation
      of the sequential records. */
  lemma MergedOnceIsPermutation(jobs: seq<seq<Frame>>, kernel: Kernel, merged: seq<Task>)
    requires multiset(Filter(IsJob, merged)) == multiset(JobList(|jobs|))
    ensures multiset(Results(jobs, kernel, merged)) == multiset(InOrder(jobs, kernel))
  {
    var f := Payload(jobs, kernel);
    GatherFilter(f, IsJob, merged);
    GatherPermutation(f, Filter(IsJob, merged), JobList(|jobs|));
  }

  /** What the corrected run ends with, in terms of the schedule's run. */
  lemma CorrectedOutcome(s: Setup, dones: seq<set<nat>>)
    requires s.n > 0
    ensures var r := Schedule.Launch(Plan(s), [], Ascending(dones));
      var o := CorrectedRun(s, dones).outcome;
      && (o.Completed? <==> r.end.Finished?)
      && (o.Completed? ==> o.m == r.end.m && o.results == Results(s.jobs, s.kernel, r.end.m.collected))
      && (o.Completed? ==> o.final == Tally(s.minPeak, o.results, Done, |s.jobs|))
      && (o.Crashed? <==> r.end.Crashed?)
      && (o.Crashed? ==> o.failure == Protocol(r.end.fault))
  {
  }

  /** The final stats of a permutation of the sequential records count
      the sequential hits and frames. */
  lemma TallyPermutation(minPeak: int, results: seq<Record>, jobs: seq<seq<Frame>>, kernel: Kernel)
    requires multiset(results) == multiset(InOrder(jobs, kernel))
    ensures Tally(minPeak, results, Done, |jobs|)
      == Snapshot(Done, |Hits(minPeak, InOrder(jobs, kernel))|, |InOrder(jobs, kernel)|, |jobs|)
  {
    HitsPermutation(minPeak, results, InOrder(jobs, kernel));
    assert |multiset(results)| == |multiset(InOrder(jobs, kernel))|;
  }

  /** The corrected master, whatever the workers' timing: a completed run
      has stopped every worker and merged a permutation of the sequential
      records, and its final stats count exactly the sequential hits and
      frames; it fails only on more workers than jobs (there is no dummy
      job to send) or a zero update frequency. */
  lemma CorrectedRunCountsEveryFrame(s: Setup, dones: seq<set<nat>>)
    ensures var o := CorrectedRun(s, dones).outcome;
      && (o.Completed? ==> multiset(o.results) == multiset(InOrder(s.jobs, s.kernel)))
      && (o.Completed? ==>
            o.final == Snapshot(Done, |Hits(s.minPeak, InOrder(s.jobs, s.kernel))|, |InOrder(s.jobs, s.kernel)|, |s.jobs|))
      && (o.Completed? ==> |o.m.slots| == s.n && forall i :: 0 <= i < |o.m.slots| ==> o.m.slots[i].Stopped?)
      && (o.Crashed? ==> o.failure == Protocol(ModuloByZero) || o.failure == Protocol(JobIndexOutOfRange(|s.jobs|)))
      && (o == Crashed(Protocol(JobIndexOutOfRange(|s.jobs|))) <==> s.n > |s.jobs|)
  {
    var o := CorrectedRun(s, dones).outcome;
    if s.n == 0 {
      assert o == Exited;
    } else {
      var r := Schedule.Launch(Plan(s), [], Ascending(dones));
      Schedule.RunMergesEachJobOnce(Plan(s), [], Ascending(dones));
      CorrectedOutcome(s, dones);
      if r.end.Finished? {
        var m := r.end.m;
        assert o.m == m;
        MergedOnceIsPermutation(s.jobs, s.kernel, m.collected);
        TallyPermutation(s.minPeak, Results(s.jobs, s.kernel, m.collected), s.jobs, s.kernel);
        assert |m.slots| == s.n && Schedule.AllStopped(m);
      }
    }
  }

  /** The corrected master's periodic `stat.yml` updates: with a non-zero
      frequency, one after every main-loop pass whose cursor the frequency
      divides and after no other pass, each the tally of the results
      merged by then; without workers, none. */
  lemma CorrectedUpdatesFollowPasses(s: Setup, dones: seq<set<nat>>)
    ensures s.n == 0 ==> CorrectedRun(s, dones).snapshots == []
    ensures s.n > 0 && s.freq != 0 ==>
      var ms := Filter(Schedule.Divides(s.freq), Schedule.LaunchMasters(Plan(s), [], Ascending(dones)));
      var snaps := CorrectedRun(s, dones).snapshots;
      && |snaps| == |ms|
      && forall j :: 0 <= j < |ms| ==>
           snaps[j] == Tally(s.minPeak, Results(s.jobs, s.kernel, ms[j].collected), Percent(ms[j].cursor, |s.jobs|), |s.jobs|)
  {
    if s.n > 0 && s.freq != 0 {
      var cps := Schedule.Launch(Plan(s), [], Ascending(dones)).checkpoints;
      Schedule.LaunchCheckpoints(Plan(s), [], Ascending(dones));
      SnapshotsTallyCheckpoints(s, dones);
      assert cps == Filter(Schedule.Divides(s.freq), Schedule.LaunchMasters(Plan(s), [], Ascending(dones)));
    }
  }

  /** With workers, the corrected run's j-th snapshot is the tally at the
      j-th checkpoint of the dispatch. */
  lemma SnapshotsTallyCheckpoints(s: Setup, dones: seq<set<nat>>)
    requires s.n > 0
    ensures var cps := Schedule.Launch(Plan(s), [], Ascending(dones)).checkpoints;
      var snaps := CorrectedRun(s, dones).snapshots;
      && |snaps| == |cps|
      && forall j :: 0 <= j < |cps| ==>
           snaps[j] == Tally(s.minPeak, Results(s.jobs, s.kernel, cps[j].collected), Percent(cps[j].cursor, |s.jobs|), |s.jobs|)
  {
  }

  /** Saturating n workers in rank order with at least n jobs hands job
      r - 1 to rank r. */
  lemma SaturateInRankOrder(n: nat, nbJobs: nat)
    requires n <= nbJobs
    ensures Saturate(n, Workers(n), nbJobs, false).Ok?
    ensures var m := Saturate(n, Workers(n), nbJobs, false).value;
      && m.cursor == n && m.collected == [] && |m.slots| == n
      && forall i :: 0 <= i < n ==> m.slots[i] == Busy(Job(i))
  {
    var order := Workers(n);
    assert IsOrder(order, n) by {
      forall r | 1 <= r <= n
        ensures r in order
      {
        assert order[r - 1] == r;
      }
    }
    SaturateSpec(n, order, nbJobs, false);
    var m := Saturate(n, order, nbJobs, false).value;
    forall i | 0 <= i < n
      ensures m.slots[i] == Busy(Job(i))
    {
      assert order[i] - 1 == i;
      assert Next(i, nbJobs, false) == Ok(Job(i));
    }
  }

  /** Two jobs, two workers, both finished when the drain's first pass
      tests them: worker 1 is removed from the list, the pass skips worker
      2, and the run completes with job 1 still out and its frames
      missing from the results. */
  lemma DrainSkipsWorker(kernel: Kernel)
    ensures var jobs := [[Frame("a.h5", 0)], [Frame("a.h5", 1)]];
      var r := Run(Setup(2, jobs, kernel, 1, 10), [{1, 2}]);
      && r.outcome.Completed?
      && r.outcome.m.slots[1] == Busy(Job(1))
      && Job(1) !in r.outcome.m.collected
      && |r.outcome.results| == 1 < 2 == |InOrder(jobs, kernel)|
  {
    var jobs := [[Frame("a.h5", 0)], [Frame("a.h5", 1)]];
    OneDrainPass(jobs, kernel);
    TwoJobsInOrder(jobs, kernel);
  }

  /** The run of DrainSkipsWorker for any two one-frame jobs: the single
      drain pass removes worker 1 and never tests worker 2. */
  lemma OneDrainPass(jobs: seq<seq<Frame>>, kernel: Kernel)
    requires |jobs| == 2 && |jobs[0]| == 1
    ensures var r := Run(Setup(2, jobs, kernel, 1, 10), [{1, 2}]);
      && r.outcome.Completed?
      && r.outcome.m.slots[1] == Busy(Job(1))
      && r.outcome.m.collected == [Job(0)]
      && r.outcome.results == Annotated(jobs[0], kernel)
  {
    var s := Setup(2, jobs, kernel, 1, 10);
    FirstDrainPass();
    var m0 := Saturate(2, Workers(2), 2, false).value;
    var m1 := Complete(m0, 1, 2).value;
    assert Workers(2) == [1, 2];
    assert Results(jobs, kernel, [Job(0)]) == Annotated(jobs[0], kernel) by {
      assert [Job(0)][..0] == [];
    }
    assert Sweep(s, m0, [1, 2], [{1, 2}], 0, []) == Finish(s, m1, []);
    assert Run(s, [{1, 2}]) == Finish(s, m1, []);
  }

  /** Two workers saturated with two jobs, both finished: the first drain
      pass collects job 0, drops worker 1 and stops before worker 2. */
  lemma FirstDrainPass()
    ensures Saturate(2, Workers(2), 2, false).Ok?
    ensures var m0 := Saturate(2, Workers(2), 2, false).value;
      var c := Complete(m0, 1, 2);
      && c.Ok?
      && c.value.collected == [Job(0)]
      && c.value.slots[1] == Busy(Job(1))
      && SweepList(m0, [1, 2], 0, {1, 2}, 2, true) == Ok(Drained(c.value, [2], true))
  {
    SaturateInRankOrder(2, 2);
    var m0 := Saturate(2, Workers(2), 2, false).value;
    var m1 := Complete(m0, 1, 2).value;
    assert m1.collected == [Job(0)];
    assert [1, 2][..0] + [1, 2][1..] == [2];
    assert SweepList(m0, [1, 2], 0, {1, 2}, 2, true) == SweepList(m1, [2], 1, {1, 2}, 2, true);
    assert SweepList(m1, [2], 1, {1, 2}, 2, true) == Ok(Drained(m1, [2], true));
  }

  /** With two jobs, the sequential records are those of job 0, then those
      of job 1. */
  lemma TwoJobsInOrder(jobs: seq<seq<Frame>>, kernel: Kernel)
    requires |jobs| == 2
    ensures InOrder(jobs, kernel) == Annotated(jobs[0], kernel) + Annotated(jobs[1], kernel)
  {
    assert JobList(2) == [Job(0), Job(1)];
    assert [Job(0), Job(1)][..1] == [Job(0)];
    assert [Job(0)][..0] == [];
  }

  /** Two workers, three jobs: the last refill stops worker 2 in the main
      loop, and the drain that follows tests worker 2's used-up request. */
  lemma StaleRequestAfterStop(jobs: seq<seq<Frame>>, kernel: Kernel)
    requires |jobs| == 3
    ensures Run(Setup(2, jobs, kernel, 1, 10), [{1, 2}, {}]).outcome == Crashed(Protocol(StaleRequest(2)))
  {
    var s := Setup(2, jobs, kernel, 1, 10);
    SaturateInRankOrder(2, 3);
    var m0 := Saturate(2, Workers(2), 3, false).value;
    assert Workers(2) == [1, 2];
    var m1 := Complete(m0, 1, 3).value;
    var m2 := Complete(m1, 2, 3).value;
    assert m2.slots[0] == Busy(Job(2)) && m2.slots[1] == Stopped && m2.cursor == 3;
    assert Pass(m0, [1, 2], {1, 2}, 3) == Ok(Passes.Swept(m2, true)) by {
      assert [1, 2][..1] == [1];
      assert [1][..0] == [];
    }
    assert Schedule.Periodic(Some(10), 3) == Ok(false);
    assert Run(s, [{1, 2}, {}]) == Sweep(s, m2, [1, 2], [{1, 2}, {}], 1, []);
    assert SweepList(m2, [1, 2], 0, {}, 3, true) == SweepList(m2, [1, 2], 1, {}, 3, false);
  }

  /** One worker, two jobs, update frequency 1: nothing has finished at the
      first pass, yet the cursor (1) is a multiple of the frequency, and the
      stats of an empty result list fail. */
  lemma FirstUpdateWithoutRecords(jobs: seq<seq<Frame>>, kernel: Kernel)
    requires |jobs| == 2
    ensures Run(Setup(1, jobs, kernel, 1, 1), [{}]).outcome == Crashed(NoRecords)
  {
    SaturateInRankOrder(1, 2);
    var m0 := Saturate(1, Workers(1), 2, false).value;
    assert Workers(1) == [1];
    assert Pass(m0, [1], {}, 2) == Ok(Passes.Swept(m0, false)) by {
      assert [1][..0] == [];
    }
    assert Results(jobs, kernel, []) == [];
  }
}
