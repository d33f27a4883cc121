/** The master of util/batch_peak_powder.py: the set-based dispatch loop
    with the empty dummy job for workers beyond the last job and no
    periodic stats; the peaks of every finished job are concatenated in
    merge order and scattered onto a grid the shape of the first frame of
    the first job. The jobs come from `collect_jobs` (util/__init__.py is
    not part of this model), so they are an input, as are the peak finder
    and the image shape `read_image` reports. */
module PowderMaster {
  import opened Common
  import opened Units
  import opened Worker
  import opened Dispatch
  import opened Grid
  import Schedule

  /** The shape of the image of a frame, read through its file. */
  type Shape = (string, int) -> (nat, nat)

  /** n workers, the jobs, the peak finder, the image shape and `-o`. */
  datatype Setup = Setup(n: nat, jobs: seq<seq<Frame>>, kernel: Kernel, shape: Shape, output: string)

  datatype Failure =
    | Protocol(fault: Fault)
    | NoJobs          // `jobs[0]` with no jobs
    | EmptyFirstJob   // `jobs[0][0]` with an empty first job
    | Scatter(error: GridError)
    | MissingDirectory // `os.mkdir('')` when `-o` names no directory: FileNotFoundError

  datatype Outcome =
    | Exited                                              // fewer than two processes
    | Saved(m: Master, peaks: seq<Peak>, powder: seq<seq<int>>)
    | Stalled(m: Master)
    | Crashed(failure: Failure)

  /** The peaks a finished task sends back: those of its job, or none for
      the dummy job. */
  function Payload(jobs: seq<seq<Frame>>, kernel: Kernel): Task -> seq<Peak>
  {
    (t: Task) => if t.Job? && t.index < |jobs| then JobPeaks(jobs[t.index], kernel) else []
  }

  /** `peaks`: the peaks of the tasks in the order they were merged. */
  function Merged(jobs: seq<seq<Frame>>, kernel: Kernel, merged: seq<Task>): seq<Peak>
  {
    Gather(Payload(jobs, kernel), merged)
  }

  /** The peaks of every job, job by job. */
  function InOrder(jobs: seq<seq<Frame>>, kernel: Kernel): seq<Peak>
  {
    Merged(jobs, kernel, JobList(|jobs|))
  }

  function Plan(s: Setup): Schedule.Plan
  {
    Schedule.Plan(s.n, |s.jobs|, true, None)
  }

  /** The directory part of a path: everything before its last '/'. */
  function Head(path: string): (h: string)
    ensures |h| <= |path| && h == path[..|h|]
    ensures forall j :: |h| <= j < |path| ==> path[j] != '/'
    ensures |h| > 0 ==> h[|h| - 1] == '/'
  {
    if |path| == 0 then []
    else if path[|path| - 1] == '/' then path
    else Head(path[..|path| - 1])
  }

  /** `h` without its trailing slashes. */
  function StripSlashes(h: string): (d: string)
    ensures |d| <= |h| && d == h[..|d|]
    ensures forall j :: |d| <= j < |h| ==> h[j] == '/'
  {
    if |h| > 0 && h[|h| - 1] == '/' then StripSlashes(h[..|h| - 1]) else h
  }

  /** `os.path.dirname` on a POSIX path: the part before the last '/', with
      its trailing slashes removed unless it is nothing but slashes. */
  function Dirname(path: string): (d: string)
    ensures d == [] <==> '/' !in path
  {
    var h := Head(path);
    if forall j :: 0 <= j < |h| ==> h[j] == '/' then h
    else
      var d := StripSlashes(h);
      assert |d| > 0;
      d
  }

  /** "build and save peak powder" after the drain: the grid, then
      `if not os.path.isdir(dir_): os.mkdir(dir_)` for the directory of
      `-o`. With `guarded` false this is the code as written, where an
      output name without a directory makes `os.mkdir('')` fail; with
      `guarded` true an empty directory name is left alone. */
  function Save(s: Setup, m: Master, peaks: seq<Peak>, guarded: bool): Outcome
  {
    if |s.jobs| == 0 then Crashed(NoJobs)
    else if |s.jobs[0]| == 0 then Crashed(EmptyFirstJob)
    else
      var dims := s.shape(s.jobs[0][0].filepath, s.jobs[0][0].frame);
      match Powder(dims.0, dims.1, peaks)
      case Err(e) => Crashed(Scatter(e))
      case Ok(g) =>
        if Dirname(s.output) == [] && !guarded then Crashed(MissingDirectory)
        else Saved(m, peaks, g)
  }

  /** `master_run`; `hint` and `rounds` fix the sets' iteration orders and
      the workers' timing; `guarded` as in `Save`. */
  function Run(s: Setup, hint: seq<nat>, rounds: seq<Schedule.Round>, guarded: bool): Outcome
  {
    if s.n == 0 then Exited
    else
      var r := Schedule.Launch(Plan(s), hint, rounds);
      match r.end
      case Finished(m) => Save(s, m, Merged(s.jobs, s.kernel, m.collected), guarded)
      case Stalled(m) => Stalled(m)
      case Crashed(f) => Crashed(Protocol(f))
  }

  /** What the save leaves, against the peaks of every job taken in order:
      saved peaks are a permutation of them, and the powder, or the failure
      to build it, is exactly what they give, except that as written an
      output name without a directory fails once the grid is built. */
  ghost predicate SavesInOrder(s: Setup, o: Outcome, guarded: bool)
  {
    && (o.Saved? ==> multiset(o.peaks) == multiset(InOrder(s.jobs, s.kernel)))
    && (o.Saved? || (o.Crashed? && (o.failure.Scatter? || o.failure.MissingDirectory?)) ==>
          |s.jobs| > 0 && |s.jobs[0]| > 0 &&
          var dims := s.shape(s.jobs[0][0].filepath, s.jobs[0][0].frame);
          match Powder(dims.0, dims.1, InOrder(s.jobs, s.kernel))
          case Ok(g) =>
            if !guarded && '/' !in s.output then o == Crashed(MissingDirectory)
            else o.Saved? && o.powder == g
          case Err(e) => o == Crashed(Scatter(e)))
  }

  /** Saving any permutation of the in-order peaks. */
  lemma SavePermutation(s: Setup, m: Master, peaks: seq<Peak>, guarded: bool)
    requires multiset(peaks) == multiset(InOrder(s.jobs, s.kernel))
    ensures SavesInOrder(s, Save(s, m, peaks, guarded), guarded)
    ensures !(Save(s, m, peaks, guarded).Crashed? && Save(s, m, peaks, guarded).failure.Protocol?)
  {
    if |s.jobs| > 0 && |s.jobs[0]| > 0 {
      var dims := s.shape(s.jobs[0][0].filepath, s.jobs[0][0].frame);
      forall p
        ensures p in peaks <==> p in InOrder(s.jobs, s.kernel)
      {
        assert p in peaks <==> p in multiset(peaks);
      }
      PowderIgnoresOrderAndDuplicates(dims.0, dims.1, peaks, InOrder(s.jobs, s.kernel));
    }
  }

  /** Whatever the workers' timing and the sets' iteration order, the
      dispatch never fails (the dummy job covers surplus workers and there
      are no periodic stats), and what is saved is what the peaks of every
      job taken in order give (`SavesInOrder`), each job merged once and
      the dummy jobs adding nothing. */
  lemma PowderMatchesSequential(s: Setup, hint: seq<nat>, rounds: seq<Schedule.Round>, guarded: bool)
    ensures var o := Run(s, hint, rounds, guarded);
      && !(o.Crashed? && o.failure.Protocol?)
      && SavesInOrder(s, o, guarded)
  {
    if s.n > 0 {
      Schedule.RunMergesEachJobOnce(Plan(s), hint, rounds);
      var r := Schedule.Launch(Plan(s), hint, rounds);
      assert !r.end.Crashed?;
      if r.end.Finished? {
        var m := r.end.m;
        var o := Save(s, m, Merged(s.jobs, s.kernel, m.collected), guarded);
        assert Run(s, hint, rounds, guarded) == o;
        var f := Payload(s.jobs, s.kernel);
        GatherFilter(f, IsJob, m.collected);
        GatherPermutation(f, Filter(IsJob, m.collected), JobList(|s.jobs|));
        SavePermutation(s, m, Merged(s.jobs, s.kernel, m.collected), guarded);
      }
    }
  }

  /** As written, an output name without a directory, such as the default
      `powder.npz`, is never saved: a run that gets as far as a built grid
      fails before `np.savez`. */
  lemma BareOutputNeverSaved(s: Setup, hint: seq<nat>, rounds: seq<Schedule.Round>)
    requires '/' !in s.output
    ensures !Run(s, hint, rounds, false).Saved?
    ensures var r := Schedule.Launch(Plan(s), hint, rounds);
      s.n > 0 && r.end.Finished? && |s.jobs| > 0 && |s.jobs[0]| > 0 &&
      (var dims := s.shape(s.jobs[0][0].filepath, s.jobs[0][0].frame);
       Powder(dims.0, dims.1, Merged(s.jobs, s.kernel, r.end.m.collected)).Ok?)
      ==> Run(s, hint, rounds, false) == Crashed(MissingDirectory)
  {
  }

  /** Gathering the job peaks of jobs 0..k-1 in order concatenates the
      workers' per-job peak lists. */
  lemma {:induction false} InOrderConcatenates(jobs: seq<seq<Frame>>, kernel: Kernel, k: nat)
    requires k <= |jobs|
    ensures Merged(jobs, kernel, JobList(k)) == Concat(seq(k, i requires 0 <= i < k => JobPeaks(jobs[i], kernel)))
    decreases k
  {
    var parts := seq(k, i requires 0 <= i < k => JobPeaks(jobs[i], kernel));
    if k > 0 {
      InOrderConcatenates(jobs, kernel, k - 1);
      var init := seq(k - 1, i requires 0 <= i < k - 1 => JobPeaks(jobs[i], kernel));
      assert parts[..k - 1] == init;
      assert JobList(k)[..k - 1] == JobList(k - 1);
    } else {
      assert parts == [];
    }
  }
}
