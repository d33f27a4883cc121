/** The master of util/batch_peak2cxi.py together with its workers: the
    records of the peak file are split into `ceil(n / batch_size)` jobs,
    handed out by the set-based dispatch loop with periodic progress
    reports, and every worker compacts the hits of the jobs it receives
    into numbered files. The record array is an input (reading the peak
    file is not modelled), as are the sets' iteration orders and the
    workers' timing. */
module CxiMaster {
  import opened Common
  import opened Units
  import opened Partition
  import opened Dispatch
  import opened Compactor
  import opened Delivery
  import Schedule

  /** The number of workers, `--batch-size`, `--update-freq`, the file
      prefix, `--min-peak` and `--cxi-size`. */
  datatype Setup = Setup(n: nat, batchSize: int, freq: int, prefix: string, minPeak: int, cxiSize: int)

  datatype Outcome =
    | Exited                                      // fewer than two processes
    | SplitFailed(error: SplitError)              // the job split raised
    | Dispatched(jobs: seq<seq<Record>>, run: Schedule.Run)

  function Plan(s: Setup, nbJobs: nat, dummies: bool): Schedule.Plan
  {
    Schedule.Plan(s.n, nbJobs, dummies, Some(s.freq))
  }

  /** `master_run`. The loop picks the empty dummy job for a worker beyond
      the last job but sends `jobs[job_id]` anyway: `dummies` false is the
      code as written, `dummies` true sends the dummy it picked. */
  function Run(s: Setup, items: seq<Record>, hint: seq<nat>, rounds: seq<Schedule.Round>, dummies: bool): Outcome
  {
    if s.n == 0 then Exited
    else
      match Jobs(items, s.batchSize)
      case Err(e) => SplitFailed(e)
      case Ok(jobs) => Dispatched(jobs, Schedule.Launch(Plan(s, |jobs|, dummies), hint, rounds))
  }

  /** The job a note hands a worker: a real job, the empty dummy job, or
      nothing for a stop flag. */
  function Receives(jobs: seq<seq<Record>>): Note -> seq<seq<Record>>
  {
    (note: Note) =>
      if note.Work? && note.task.Job? && note.task.index < |jobs| then [jobs[note.task.index]]
      else if note.Work? && note.task.Placeholder? then [[]]
      else []
  }

  /** The jobs worker `r` receives, in order. */
  function Received(jobs: seq<seq<Record>>, log: seq<Msg>, r: nat): seq<seq<Record>>
  {
    Gather(Receives(jobs), Trace(log, r))
  }

  function Worker(s: Setup, r: nat): Config
  {
    Config(s.prefix, r, s.minPeak, s.cxiSize)
  }

  /** The files worker `r` leaves: its `slave_run` fed every frame it
      received, then stopped. */
  function Files(s: Setup, jobs: seq<seq<Record>>, log: seq<Msg>, r: nat): seq<CxiFile>
  {
    Shutdown(Worker(s, r), FeedAll(Worker(s, r), Start, Concat(Received(jobs, log, r))))
  }

  /** The frames in the files of workers 1..k, counted together. */
  function Written(s: Setup, jobs: seq<seq<Record>>, log: seq<Msg>, k: nat): multiset<Record>
  {
    if k == 0 then multiset{} else Written(s, jobs, log, k - 1) + multiset(Concat(Contents(Files(s, jobs, log, k))))
  }

  /** The hits a note brings a worker. */
  function NoteHits(jobs: seq<seq<Record>>, minPeak: int): Note -> seq<Record>
  {
    (note: Note) => Hits(minPeak, Concat(Receives(jobs)(note)))
  }

  /** The hits a task handed out brings. */
  function TaskHits(jobs: seq<seq<Record>>, minPeak: int): Task -> seq<Record>
  {
    (t: Task) => Hits(minPeak, Concat(Receives(jobs)(Work(t))))
  }

  lemma ConcatOne<T>(s: seq<T>)
    ensures Concat([s]) == s
  {
    assert [s][..0] == [];
  }

  /** The hits among the frames a worker receives are the hits of its
      notes, note by note. */
  lemma {:induction false} HitsOfReceived(jobs: seq<seq<Record>>, minPeak: int, notes: seq<Note>)
    ensures Hits(minPeak, Concat(Gather(Receives(jobs), notes))) == Gather(NoteHits(jobs, minPeak), notes)
    decreases |notes|
  {
    if |notes| > 0 {
      var init, last := notes[..|notes| - 1], notes[|notes| - 1];
      HitsOfReceived(jobs, minPeak, init);
      ConcatAppend(Gather(Receives(jobs), init), Receives(jobs)(last));
      HitsAppend(minPeak, Concat(Gather(Receives(jobs), init)), Concat(Receives(jobs)(last)));
    }
  }

  /** Every worker's files hold exactly the hits it was sent. */
  lemma {:induction false} WrittenDelivered(s: Setup, jobs: seq<seq<Record>>, log: seq<Msg>, k: nat)
    ensures Written(s, jobs, log, k) == Delivered(NoteHits(jobs, s.minPeak), log, k)
    decreases k
  {
    if k > 0 {
      WrittenDelivered(s, jobs, log, k - 1);
      FilesHoldHits(s, jobs, log, k);
      assert Delivered(NoteHits(jobs, s.minPeak), log, k)
        == Delivered(NoteHits(jobs, s.minPeak), log, k - 1) + multiset(Gather(NoteHits(jobs, s.minPeak), Trace(log, k)));
    }
  }

  /** The files of one worker hold the hits its notes bring, note by note. */
  lemma FilesHoldHits(s: Setup, jobs: seq<seq<Record>>, log: seq<Msg>, r: nat)
    ensures Concat(Contents(Files(s, jobs, log, r))) == Gather(NoteHits(jobs, s.minPeak), Trace(log, r))
  {
    var rs := Concat(Received(jobs, log, r));
    AllSizesWriteAllHits(Worker(s, r), rs);
    HitsOfReceived(jobs, s.minPeak, Trace(log, r));
  }

  /** The hits of jobs 0..k-1, handed out in order, are the hits of their
      frames taken together. */
  lemma {:induction false} TaskHitsInOrder(jobs: seq<seq<Record>>, minPeak: int, k: nat)
    requires k <= |jobs|
    ensures Gather(TaskHits(jobs, minPeak), JobList(k)) == Hits(minPeak, Concat(jobs[..k]))
    decreases k
  {
    if k > 0 {
      TaskHitsInOrder(jobs, minPeak, k - 1);
      assert JobList(k)[..k - 1] == JobList(k - 1);
      assert jobs[..k] == jobs[..k - 1] + [jobs[k - 1]];
      ConcatSnoc(jobs[..k - 1], jobs[k - 1]);
      ConcatOne(jobs[k - 1]);
      assert Receives(jobs)(Work(Job(k - 1))) == [jobs[k - 1]];
      assert TaskHits(jobs, minPeak)(Job(k - 1)) == Hits(minPeak, jobs[k - 1]);
      HitsAppend(minPeak, Concat(jobs[..k - 1]), jobs[k - 1]);
    }
  }

  /** Stop flags bring no hits, a Work note brings what its task brings,
      and the dummy job brings none. */
  lemma NotesCarryTasks(jobs: seq<seq<Record>>, minPeak: int)
    ensures NoteHits(jobs, minPeak)(Go) == [] && NoteHits(jobs, minPeak)(Halt) == []
    ensures forall t :: NoteHits(jobs, minPeak)(Work(t)) == TaskHits(jobs, minPeak)(t)
    ensures forall t :: !IsJob(t) ==> TaskHits(jobs, minPeak)(t) == []
  {
    assert Concat<Record>([]) == [];
    assert Hits(minPeak, []) == [];
    ConcatOne<Record>([]);
    assert Receives(jobs)(Go) == [] && Receives(jobs)(Halt) == [];
    assert Receives(jobs)(Work(Placeholder)) == [[]];
  }

  /** What the Work notes of a finished dispatch carry is the hits of
      every record: the dummy jobs carry none and the real jobs go out
      once each, in order. */
  lemma PostedHits(s: Setup, items: seq<Record>, jobs: seq<seq<Record>>, log: seq<Msg>)
    requires Concat(jobs) == items
    requires Filter(IsJob, Issued(log)) == JobList(|jobs|)
    ensures Posted(NoteHits(jobs, s.minPeak), log) == Hits(s.minPeak, items)
  {
    var g, p := NoteHits(jobs, s.minPeak), TaskHits(jobs, s.minPeak);
    NotesCarryTasks(jobs, s.minPeak);
    PostedIssued(g, p, log);
    GatherFilter(p, IsJob, Issued(log));
    TaskHitsInOrder(jobs, s.minPeak, |jobs|);
    assert jobs[..|jobs|] == jobs;
  }

  /** However the workers are timed and the sets iterated, when the
      dispatch finishes the files of all workers together hold every hit of
      the peak file exactly once, and no other frame. */
  lemma EveryHitWrittenOnce(s: Setup, items: seq<Record>, hint: seq<nat>, rounds: seq<Schedule.Round>, dummies: bool)
    ensures var o := Run(s, items, hint, rounds, dummies);
      o.Dispatched? && o.run.end.Finished? ==>
        Written(s, o.jobs, o.run.end.m.log, s.n) == multiset(Hits(s.minPeak, items))
  {
    if s.n > 0 && Jobs(items, s.batchSize).Ok? {
      var jobs := Jobs(items, s.batchSize).value;
      var plan := Plan(s, |jobs|, dummies);
      assert Run(s, items, hint, rounds, dummies) == Dispatched(jobs, Schedule.Launch(plan, hint, rounds));
      var end := Schedule.Launch(plan, hint, rounds).end;
      if end.Finished? {
        JobsSpec(items, s.batchSize);
        Schedule.FinishedLog(plan, hint, rounds);
        var log := end.m.log;
        WrittenDelivered(s, jobs, log, s.n);
        DeliveredAll(NoteHits(jobs, s.minPeak), log, s.n);
        PostedHits(s, items, jobs, log);
      }
    }
  }

  /** The dispatch as written: with more workers than jobs it indexes past
      the last job while saturating, and nothing is dispatched after that.
      A single record and two or more workers are enough. */
  lemma DummyJobNotSent(s: Setup, item: Record, hint: seq<nat>, rounds: seq<Schedule.Round>)
    requires s.n >= 2 && s.batchSize >= 1
    ensures Run(s, [item], hint, rounds, false).Dispatched?
    ensures Run(s, [item], hint, rounds, false).run.end == Schedule.Crashed(JobIndexOutOfRange(1))
  {
    OneRecordOneJob(item, s.batchSize);
    var plan := Plan(s, 1, false);
    Schedule.SurplusWorkersCrash(plan, hint, rounds);
  }

  /** A single record makes a single job, whatever the batch size. */
  lemma OneRecordOneJob(item: Record, batchSize: int)
    requires batchSize >= 1
    ensures Jobs([item], batchSize) == Ok([[item]])
  {
    JobsSpec([item], batchSize);
    var jobs := Jobs([item], batchSize).value;
    assert |jobs| == 1 by {
      if |jobs| >= 2 {
        MulLe(1, |jobs| - 1, batchSize);
      }
    }
    ConcatOne(jobs[0]);
    assert jobs == [jobs[0]];
  }

  /** The dispatch with the dummy job sent: whatever the sizes, it fails
      only on a zero update frequency. */
  lemma DummyJobSent(s: Setup, items: seq<Record>, hint: seq<nat>, rounds: seq<Schedule.Round>)
    ensures var o := Run(s, items, hint, rounds, true);
      o.Dispatched? && o.run.end.Crashed? ==> o.run.end.fault == ModuloByZero && s.freq == 0
  {
    var o := Run(s, items, hint, rounds, true);
    if o.Dispatched? {
      Schedule.LaunchSound(Plan(s, |o.jobs|, true), hint, rounds);
    }
  }
}
