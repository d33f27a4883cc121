# SFX-suite batch dispatch, modelled in Dafny

SFX-suite runs three MPI batch programs over the frames of serial
crystallography containers. Each has one master (rank 0) and workers
(ranks 1 .. size-1):

- `batch_hit_finder.py` annotates every frame with its peak count and
  writes hit statistics.
- `util/batch_peak2cxi.py` splits a peak file into jobs. Its workers
  compact the hits into numbered CXI files.
- `util/batch_peak_powder.py` gathers the strong peaks of every frame and
  scatters them onto a 0/1 powder grid.

The masters share one protocol. They saturate every worker with a job,
refill each worker whose request has completed until the jobs run out,
then drain the remaining workers with the stop flag. Each master has its
own variation on that protocol.

The model follows the program's structure:

| module | file | what it holds |
|---|---|---|
| `Common` | common.dfy | `Option`/`Result`, sequence helpers (`Concat`, `Filter`, `Gather`) and their algebra |
| `Manifest` | manifest.dfy | `readlines`, and the two ways the masters strip line terminators |
| `Partition` | partition.dfy | `ceil(n / batch_size)` followed by NumPy's `array_split` |
| `Units` | units.dfy | frames, records, peaks; the hit test `nb_peak >= min_peak` |
| `Worker` | worker.dfy | the per-job loops of the hit-finder and powder workers, with the single-entry file cache |
| `Compactor` | compactor.dfy | the compaction worker: batch buffer, flush at `cxi_size`, final flush, file naming |
| `Grid` | grid.dfy | the powder scatter `powder[peaks[:, 0], peaks[:, 1]] = 1` |
| `Dispatch` | dispatch.dfy | the master state (cursor, one slot per worker, merged results, message log), saturation and refill steps, and the invariant they keep |
| `Passes` | passes.dfy | one polling pass over the workers in a set's iteration order |
| `Schedule` | schedule.dfy | the set-based master loop (saturate, refill, periodic stats, drain) |
| `Delivery` | delivery.dfy | what every worker receives, summed over workers |
| `HitFinder` | hit_finder.dfy | `batch_hit_finder.py` as written (list-based), and corrected |
| `CxiMaster` | cxi.dfy | `util/batch_peak2cxi.py`, master and workers together |
| `PowderMaster` | powder.dfy | `util/batch_peak_powder.py`'s master, up to the powder grid and its output directory |

Several inputs are left open, so the proofs hold for every choice:

- **Timing.** Which requests have completed at each poll is a parameter:
  a sequence of rounds, each a set of finished ranks.
- **Set iteration order.** For the set-based loops, the order in which a
  Python set yields its members is also a parameter: a hint sequence.
  `Passes.ArrangeReachesEveryOrder` shows that every order is reachable.
- **External calls.** The peak finder, the image shape and the job list
  of `collect_jobs` are parameters.

Running out of rounds leaves a run `Stalled`. A blocking loop that never
ends is thereby represented, not excluded.

### Where the source and its description differ

The model follows the code in each of these cases:

- **Job sizes.** `util/batch_peak2cxi.py` makes `ceil(n / batch_size)`
  jobs with `array_split`. The jobs differ in size by at most one, larger
  jobs first. They are not `batch_size`-sized jobs with a smaller
  remainder.
- **Worker order within a pass.** The set-based masters walk a Python
  set, not the workers in rank order. The model allows any order. The
  hit finder walks its list in rank order.
- **Surplus workers in `batch_hit_finder.py`.** It has no dummy job. With
  more workers than jobs, saturation raises IndexError.
- **Surplus workers in `util/batch_peak2cxi.py`.** It chooses the dummy
  job but sends `jobs[job_id]`. See Findings.
- **Drain in `batch_hit_finder.py`.** It does not keep an active set. See
  Findings.

## Model

| member | source | states |
|---|---|---|
| Manifest.Translate | batch_hit_finder.py:34 | defines universal-newline translation (`\r\n` and a lone `\r` become `\n`); stated by TranslateRemovesCr |
| Manifest.CrlfReadsAsLf | util/batch_peak_powder.py:31-32 | a manifest written with "\r\n" line endings reaches `readlines` as the same paths written with "\n" line endings |
| Manifest.CrlfManifest | batch_hit_finder.py:34-39 | the manifest `a.h5` with a Windows line ending reads as the path `a.h5` in both masters |
| Manifest.ReadLines | batch_hit_finder.py:34-35 | on the text `open()` produced, the lines of `readlines` concatenate back to the text; none is empty; every line but the last ends in a newline; no line holds a newline before its end |
| Manifest.PowderFiles | util/batch_peak_powder.py:32-40 | the powder master reads one path per manifest line, and no path contains a newline |
| Manifest.StripNewline | util/batch_peak_powder.py:36-40 | defines the powder master's strip: the last character is dropped only when it is a newline |
| Manifest.ChopLast | batch_hit_finder.py:38-39 | defines the hit finder's `f[:-1]`: the last character is dropped whatever it is |
| Manifest.HitFinderFiles | batch_hit_finder.py:34-39 | the hit finder reads one path per manifest line; which paths is stated by ReadingsAgreeIff and, path by path, HitFinderPaths |
| Manifest.PowderFilesRoundTrip | util/batch_peak_powder.py:35-40 | joining the powder master's paths with newlines, plus a final newline when the manifest had one, gives back the manifest exactly |
| Manifest.ChopStripAgreeIff | batch_hit_finder.py:37-39 | on readlines-shaped lines, always dropping the last character agrees with dropping only a newline iff there are no lines or the last line ends in a newline |
| Manifest.ReadingsAgreeIff | batch_hit_finder.py:34-39 | the two masters read the same paths from a manifest iff it is empty or ends with a newline |
| Manifest.HitFinderPaths | batch_hit_finder.py:34-39 | for every manifest, path by path: the hit finder reads the powder master's paths, except that the last path of a manifest without a final newline loses its last character |
| Manifest.HitFinderTruncatesLastPath | batch_hit_finder.py:37-39 | for the manifest `a.h5` without a final newline, the hit finder reads `a.h` while the powder master reads `a.h5` |
| Partition.NbJobs | util/batch_peak2cxi.py:44-45 | the job count is the least integer not below `n / batch_size`, for positive and for negative batch sizes; a zero batch size fails with the division error |
| Partition.SplitSucceedsIff | util/batch_peak2cxi.py:45 | the job count is positive iff there is a frame and the batch size is positive |
| Partition.ArraySplit | util/batch_peak2cxi.py:48 | `array_split` into k sections fails iff k <= 0; otherwise it returns k sections that concatenate to 0..n-1, the first `n % k` of them one longer than the others |
| Partition.Jobs | util/batch_peak2cxi.py:44-51 | defines the split: `ceil(n / batch_size)` jobs, each the records of one `array_split` section, in order; stated by JobsSpec |
| Partition.JobsSpec | util/batch_peak2cxi.py:44-51 | the split succeeds iff the batch size and the frame count are positive; a zero batch size fails in the division; on success the jobs concatenate back to the frames, number `ceil(n / batch_size)`, hold between 1 and `batch_size` frames each, and differ in size by at most one, larger jobs first |
| Partition.JobSizes | util/batch_peak2cxi.py:45-51 | every job holds between 1 and `batch_size` frames, and a later job is never longer than an earlier one nor shorter by more than one |
| Units.Hits | batch_hit_finder.py:89 | a record is among the hits iff it is one of the records and its `nb_peak` reaches `min_peak` |
| Units.HitsAppend | util/batch_peak2cxi.py:153-155 | the hits of two record lists in a row are the hits of the first followed by those of the second |
| Units.HitsPermutation | batch_hit_finder.py:88-90 | the hits, and their number, do not depend on the order the records arrive in |
| Worker.Opens | batch_hit_finder.py:171-173 | defines which files the single-entry cache opens: a path is opened exactly when it differs from the one used last. AnnotateJob and CollectPeaks are proved against it |
| Worker.AnnotateJob | batch_hit_finder.py:168-185 | the worker returns every frame of its job in place and in order, each carrying the size of the kernel's strong-peak list (0 for None); it opens a file exactly when a frame's path differs from the cached one, and leaves the last path cached |
| Worker.CollectPeaks | util/batch_peak_powder.py:147-166 | the powder worker returns the concatenation of every frame's strong peaks, in frame order, None adding nothing, through the same single-entry cache |
| Worker.OpensAcrossJobs | batch_hit_finder.py:146-147 | since the cache survives from one job to the next, two jobs in a row open the same files as their frames taken as one stream |
| Worker.GroupedOpensEachOnce | batch_hit_finder.py:171-173 | when a worker's frames are grouped by container, every container is opened exactly once and only those containers are opened |
| Compactor.Feed | util/batch_peak2cxi.py:153-168 | defines one frame of the compaction loop: a hit joins the batch; a batch whose length equals `cxi_size` is written under the current count, cleared, and the count advances |
| Compactor.FeedAll | util/batch_peak2cxi.py:151-170 | defines the frames of all received jobs fed in receipt order |
| Compactor.Shutdown | util/batch_peak2cxi.py:171-180 | defines the final flush: a non-empty batch is written under the current count |
| Compactor.Serve | util/batch_peak2cxi.py:149-170 | the compaction worker sends every job back unchanged, and its files are those of feeding all received frames in order and then doing the final flush |
| Compactor.FeedCompacts | util/batch_peak2cxi.py:153-168 | after each frame the written files followed by the pending batch are exactly the hits so far; the files are full, named `prefix-rank-job<k>` with k = 0, 1, 2, ... in order; the batch is shorter than `cxi_size` |
| Compactor.CompactionWritesAllHits | util/batch_peak2cxi.py:148-180 | after the final flush a worker's files concatenate to exactly the hits it received, in receipt order; they are numbered 0, 1, 2, ...; all but the last hold `cxi_size` frames, and every one holds between 1 and `cxi_size` |
| Compactor.CompactionFileCount | util/batch_peak2cxi.py:156-180 | a worker writes `ceil(hits / cxi_size)` files |
| Compactor.AllSizesWriteAllHits | util/batch_peak2cxi.py:148-180 | whatever `cxi_size` is, including zero and negative sizes, after the final flush a worker's files concatenate to exactly the hits it received, in receipt order |
| Compactor.ZeroSizeWritesBeforeFirstHit | util/batch_peak2cxi.py:153-180 | with `cxi_size` 0, the worker writes one empty file for each frame before the first hit, numbered from 0, then nothing until the final flush writes every hit, in order, as one file |
| Compactor.NegativeSizeWritesAtEnd | util/batch_peak2cxi.py:153-180 | with a negative `cxi_size`, the only file is the final flush of every hit, numbered 0 |
| Grid.Powder | util/batch_peak_powder.py:110-112 | defines the scatter as a value: an empty peak list fails first, then a peak outside the grid, otherwise the occupancy grid; stated by Scatter |
| Grid.Scatter | util/batch_peak_powder.py:110-112 | the scatter fails iff the peak list is empty or some peak lies outside the grid (NumPy's negative indices allowed); otherwise the grid has the image's shape and holds 1 exactly on the cells some peak lands on, and 0 elsewhere |
| Grid.OccupancyIgnoresOrderAndDuplicates | util/batch_peak_powder.py:112 | the grid depends only on which peaks occur, not on their order or repetitions |
| Grid.PowderIgnoresOrderAndDuplicates | util/batch_peak_powder.py:104-112 | the powder, and whether building it fails, depends only on which peaks occur |
| Dispatch.Next | util/batch_peak_powder.py:59-63 | a saturation round hands out `jobs[job_id]` while jobs remain; after that it hands out the empty dummy job where the master has one, and otherwise fails with the index error on `job_id` |
| Dispatch.Hand | util/batch_peak_powder.py:59-67 | defines one saturation round: the next task goes to the worker, its slot holds it, the cursor advances and the send is logged |
| Dispatch.Saturate | util/batch_peak_powder.py:59-67 | saturating the workers of an order leaves one slot per worker and the cursor at the number of workers sent to; the rest is stated by SaturateSpec |
| Dispatch.Complete | util/batch_peak2cxi.py:79-92 | a completed request merges the task its slot held; while jobs remain the slot gets the next job and the cursor advances; after that the slot is stopped and the cursor stays; no other slot changes; testing a slot with no pending request is a fault |
| Dispatch.InitialInv | util/batch_peak2cxi.py:60-63 | the master before saturation satisfies the dispatch invariant |
| Dispatch.HandPreservesInv | util/batch_peak2cxi.py:65-73 | sending the next task to an idle worker keeps the dispatch invariant. The invariant says: messages go to existing ranks; each rank's messages fit its slot; jobs are handed out once each in order; every handed-out task is merged or still held |
| Dispatch.CompletePreservesInv | util/batch_peak2cxi.py:79-92 | handling a completed request keeps the dispatch invariant |
| Dispatch.SaturateSpec | util/batch_peak_powder.py:59-67 | saturation fails iff there are more workers than jobs and no dummy job, at index `nb_jobs`; otherwise the invariant holds, nothing is merged, the cursor is n, and the k-th worker reached holds the k-th task |
| Dispatch.AllStoppedMergedEachJobOnce | util/batch_peak_powder.py:68-102 | once every worker is stopped, every job has been merged exactly once, and nothing else but dummy jobs |
| Passes.Arrange | util/batch_peak2cxi.py:76-78 | an iteration order lists each chosen rank exactly once |
| Passes.ArrangeReachesEveryOrder | util/batch_peak2cxi.py:76-78 | every order of the chosen ranks is some iteration order, so the proofs cover whatever order a set yields |
| Passes.Poll | util/batch_peak2cxi.py:79-92 | a test succeeds iff the slot holds a pending request; an unfinished worker leaves the master unchanged; `all_done` stays true iff the worker had finished |
| Passes.Pass | util/batch_peak2cxi.py:78-92 | a pass leaves unvisited slots alone, never makes a slot idle, never moves the cursor back, and reports `all_done` iff every visited worker had finished |
| Passes.PassPreservesInv | util/batch_peak2cxi.py:78-92 | a whole pass keeps the dispatch invariant |
| Passes.PassNeverStale | util/batch_peak2cxi.py:76-79 | when the pass visits only waiting workers, each once (`slaves -= finished_slaves`), no test meets a used-up request |
| Passes.PassStopsFinished | util/batch_peak2cxi.py:110-117 | once the jobs are used up, every visited worker that had finished is stopped |
| Schedule.Launch | util/batch_peak2cxi.py:59-117 | defines a whole run: saturation, then the refill loop and the drain |
| Schedule.Refill | util/batch_peak2cxi.py:74-103 | defines the refill loop: one pass per round, each followed by the periodic update check, until the cursor passes the last job |
| Schedule.Drain | util/batch_peak2cxi.py:105-117 | defines the drain: one pass per round until a pass finds every waiting worker finished |
| Schedule.RefillMasters | util/batch_peak2cxi.py:74-92 | defines the master after each refill pass: the passes after which `job_id % update_freq` is checked |
| Schedule.Periodic | util/batch_peak2cxi.py:93 | the stats update fails iff `update_freq` is zero |
| Schedule.AllDoneStopsAll | util/batch_peak2cxi.py:105-117 | a drain pass that finds every waiting worker finished leaves every worker stopped |
| Schedule.DrainSound | util/batch_peak2cxi.py:105-117 | a drain started from a running master after the last job is sound: if it finishes, every worker is stopped and the invariant still holds |
| Schedule.RefillSound | util/batch_peak2cxi.py:74-117 | the refill loop, and the drain after it, finish with every worker stopped after the cursor passed the last job; they fail only on a zero update frequency; every periodic update comes at a cursor the frequency divides |
| Schedule.DrainKeepsCheckpoints | util/batch_peak2cxi.py:105-117 | the drain writes no periodic update |
| Schedule.RefillCheckpoints | util/batch_peak2cxi.py:74-103 | with a non-zero frequency, the refill loop records the master after exactly those passes whose cursor the frequency divides, in pass order |
| Schedule.LaunchCheckpoints | util/batch_peak2cxi.py:59-117 | the periodic updates of a run, in both directions: one after every refill pass whose cursor a non-zero frequency divides and after no other pass; none without a frequency |
| Schedule.SaturationRuns | util/batch_peak2cxi.py:65-73 | a successful saturation has sent every worker a task, with the invariant holding |
| Schedule.LaunchSound | util/batch_peak2cxi.py:59-117 | whatever the timing and iteration orders, a run finishes sound or stalls. It fails either on a zero update frequency or in saturation, and in saturation exactly when there are more workers than jobs and no dummy job |
| Schedule.SurplusWorkersCrash | util/batch_peak2cxi.py:65-70 | with more workers than jobs and no dummy job, the run fails at index `nb_jobs` |
| Schedule.RunMergesEachJobOnce | util/batch_peak_powder.py:53-102 | a finished run has stopped every worker and merged every job exactly once, in some order, besides dummy jobs; failures are exactly as in LaunchSound |
| Delivery.DeliveredAll | util/batch_peak2cxi.py:152 | when every message goes to a worker, what the workers receive, summed over workers, is what the master sent |
| Delivery.PostedIssued | util/batch_peak2cxi.py:84-85 | the stop flags carry no payload, so what the master sent is what the tasks it handed out carry, in handing-out order |
| CxiMaster.Run | util/batch_peak2cxi.py:35-117 | defines the CXI master: split the peak file, then the set-based loop; `dummies` false sends `jobs[job_id]` as written, true sends the dummy job chosen |
| CxiMaster.Files | util/batch_peak2cxi.py:148-180 | defines the files of one worker: the frames of the jobs it received, fed in order, then the final flush |
| CxiMaster.WrittenDelivered | util/batch_peak2cxi.py:148-180 | for every `cxi_size`, the files of workers 1..k together hold exactly the hits of the jobs they received |
| CxiMaster.FilesHoldHits | util/batch_peak2cxi.py:148-180 | the files of one worker hold the hits of the jobs it received, job by job in receipt order |
| CxiMaster.PostedHits | util/batch_peak2cxi.py:44-51 | when the jobs cover the records and are handed out once each in order, the jobs sent carry exactly the hits of the peak file |
| CxiMaster.EveryHitWrittenOnce | util/batch_peak2cxi.py:35-182 | whatever the timing, the iteration orders and `cxi_size`, when a dispatch finishes, the files of all workers together hold every hit of the peak file exactly once and no other frame |
| CxiMaster.OneRecordOneJob | util/batch_peak2cxi.py:44-51 | a single record makes a single job of that record, whatever the positive batch size |
| CxiMaster.DummyJobNotSent | util/batch_peak2cxi.py:65-70 | as written, one record and two or more workers make saturation fail on `jobs[1]` |
| CxiMaster.DummyJobSent | util/batch_peak2cxi.py:65-70 | sending the chosen dummy job, the dispatch can fail only on a zero update frequency |
| HitFinder.Refill | batch_hit_finder.py:67-103 | defines the main loop as written: every pass tests every worker of the list, stopped or not, then the stats update when the frequency divides the cursor |
| HitFinder.SweepList | batch_hit_finder.py:106-116 | defines a drain pass as written, where a finished worker is removed from the list being iterated and the worker moving into its place is skipped; its contract: the list only loses workers and keeps one slot per worker |
| HitFinder.Run | batch_hit_finder.py:55-139 | defines the hit-finder master as written: rank-order saturation with no dummy job, the list-based main loop, the drain, and the final stats |
| HitFinder.Finish | batch_hit_finder.py:120-139 | defines the final stats of the merged records, failing when there are none |
| HitFinder.CorrectedRun | batch_hit_finder.py:55-139 | defines the corrected master: the set-based loop with the workers in ascending order, and Tally in place of the stats |
| HitFinder.Stats | batch_hit_finder.py:85-91 | the stats fail iff no record has come back yet; otherwise hits never exceed frames |
| HitFinder.Tally | batch_hit_finder.py:88-91 | the corrected stats never fail, never count more hits than frames, and agree with the original stats whenever there are records |
| HitFinder.Workers | batch_hit_finder.py:59 | the worker list is 1, 2, ..., n |
| HitFinder.SaturateInRankOrder | batch_hit_finder.py:59-66 | with at least as many jobs as workers, saturation hands job r-1 to rank r |
| HitFinder.MergedOnceIsPermutation | batch_hit_finder.py:73 | merging every job exactly once, in any order, gives a permutation of the records a sequential run returns |
| HitFinder.TallyPermutation | batch_hit_finder.py:125-127 | the final stats of a permutation of the sequential records count the sequential hits and frames |
| HitFinder.CorrectedRunCountsEveryFrame | batch_hit_finder.py:55-139 | the corrected hit finder, whatever the timing: a completed run has stopped every worker and merged a permutation of the sequential records. Its final stats count exactly the sequential hits and frames. It fails only on a zero update frequency, or at index `nb_jobs` exactly when there are more workers than jobs |
| HitFinder.CorrectedUpdatesFollowPasses | batch_hit_finder.py:85-103 | the corrected master writes a stats update after every main-loop pass whose cursor a non-zero frequency divides and after no other pass, each the tally of the records merged by then |
| HitFinder.DrainSkipsWorker | batch_hit_finder.py:105-116 | two workers, two jobs, both finished at the drain's first pass: the run completes with worker 2 still busy, job 1 never merged, and one record instead of two |
| HitFinder.StaleRequestAfterStop | batch_hit_finder.py:70-109 | two workers, three jobs: worker 2 is stopped in the main loop and its used-up request is tested again in the drain |
| HitFinder.FirstUpdateWithoutRecords | batch_hit_finder.py:85-91 | one worker, two jobs, update frequency 1: the first stats update runs before any record has come back, and fails |
| PowderMaster.InOrderConcatenates | util/batch_peak_powder.py:145-166 | the job-by-job peaks are the workers' per-job peak lists concatenated in job order |
| PowderMaster.Dirname | util/batch_peak_powder.py:114 | the directory part of the output path is empty iff the path holds no '/' |
| PowderMaster.Save | util/batch_peak_powder.py:104-117 | defines the save: the first frame's shape, the scatter, then `os.mkdir` of the output's directory, which as written fails for an output name without a directory |
| PowderMaster.Run | util/batch_peak_powder.py:53-117 | defines the powder master: the set-based loop with the dummy job and no stats, then the save |
| PowderMaster.SavePermutation | util/batch_peak_powder.py:104-117 | saving any permutation of the job-by-job peaks gives what those peaks give, and never a protocol failure |
| PowderMaster.PowderMatchesSequential | util/batch_peak_powder.py:53-117 | whatever the timing and iteration orders, the dispatch never fails. The saved peaks are a permutation of the job-by-job peaks, and the powder, or the failure to build it, is exactly what the job-by-job peaks give; as written an output name without a directory then fails, and with the directory step guarded the powder is saved |
| PowderMaster.BareOutputNeverSaved | util/batch_peak_powder.py:113-117 | as written, an output name without a directory, such as the default `powder.npz`, is never saved: a run that builds its grid fails in `os.mkdir('')` |

## Left out

- MPI transport is not modelled as such. Every `isend` is an entry of one message log. Delivery to a rank is in sending order, as MPI guarantees between one pair of processes.
- The receive buffer `buffer_size` is left out. A result too large for it is not modelled.
- Timing is not modelled: `time.sleep`, the clock, `duration/sec` and `time start`. Which requests have completed at each poll is an input.
- Floating point is not modelled. The progress percentage and hit rate are not computed: a snapshot keeps the cursor, job count, hits and frames they are computed from.
- Partition.NbJobs: computes `ceil(n / batch_size)` exactly on integers. The float division rounds differently only beyond 2^53 frames.
- `np.round` of the peak coordinates is left out. Peaks are already integer pixels in the model.
- Printing is left out, and so are the output formats: YAML, CSV, `np.savez`, the CXI file contents and their dtype/shuffle options. A CXI file is modelled as its name and its frames.
- Creating a directory (`os.mkdir`, `os.makedirs`) is assumed to succeed whenever the path names one; a missing parent directory is not modelled. The powder master's empty directory name is modelled: with its default `-o powder.npz` it fails before `np.savez` (see Findings).
- Manifest.ReadLines: takes the manifest after `open()` has decoded it and translated its newlines (Manifest.Translate). Decoding bytes to characters is not modelled.
- Command-line and configuration parsing (docopt, YAML) is left out.
- `collect_jobs`, `find_peaks`, `read_image` and `save_full_cxi` are parameters or left out: util/__init__.py is not part of this model. The jobs, the peak-finder kernel and the image shape are inputs.
- Reading the peak file (`np.load`) is left out. The record array is an input.
- The compaction worker's final `done` message (util/batch_peak2cxi.py lines 181-182) is left out. The master never receives it.
- What a second `test()` on a completed request returns is not guessed. The model reports it as the fault `StaleRequest`.
- Compactor.CompactionWritesAllHits: its file names and file sizes are proved only for `cxi_size >= 1`; that the files hold every hit in order holds for every size (Compactor.AllSizesWriteAllHits). With `cxi_size <= 0` the model's `Feed` still does what the code does: a zero size writes one empty file for each frame before the first hit, then nothing until the final flush writes all the hits in one file (Compactor.ZeroSizeWritesBeforeFirstHit); a negative size never flushes before the end (Compactor.NegativeSizeWritesAtEnd).
- Compactor.CompactionFileCount: proved only for `cxi_size >= 1`, because `ceil(hits / cxi_size)` has no meaning for a zero size and is wrong for a negative one; the number of files for those sizes follows from Compactor.ZeroSizeWritesBeforeFirstHit and Compactor.NegativeSizeWritesAtEnd.
- The `%` operator in the periodic update check: Python's floors and Dafny's is Euclidean. Both are 0 exactly when the frequency divides the cursor, and only that is used.

## Findings

| source | as written | input that shows it | evidently intended | confidence | as-written member | corrected member |
|---|---|---|---|---|---|---|
| batch_hit_finder.py:108-112 | the drain removes finished workers from `slaves` while iterating over it, so the worker that moves into the freed position is not tested in that pass; `all_done` stays true and the loop ends | 2 workers, 2 jobs, both finished when the drain's first pass tests them | test every waiting worker in every pass; end only when all have finished | high, not executed | HitFinder.DrainSkipsWorker | HitFinder.CorrectedRunCountsEveryFrame |
| batch_hit_finder.py:70-71 | workers stopped in the main loop stay in `slaves` and their completed requests are tested again in the drain passes | 2 workers, 3 jobs, both finished at the first pass | leave stopped workers out of later passes, as util/batch_peak2cxi.py does with `finished_slaves` | medium, not executed | HitFinder.StaleRequestAfterStop | HitFinder.CorrectedRunCountsEveryFrame |
| batch_hit_finder.py:85-91 | the periodic stats index `df['nb_peak']` and divide by `len(df)` even when no result has come back | 1 worker, 2 jobs, `--update-freq 1`, the first job unfinished at the first pass | report zero hits among zero frames | high, not executed | HitFinder.FirstUpdateWithoutRecords | HitFinder.Tally |
| util/batch_peak2cxi.py:66-70 | saturation chooses the dummy job for a worker past the last job but sends `jobs[job_id]` | one record, 2 workers | send the chosen dummy job | high, not executed | CxiMaster.DummyJobNotSent | CxiMaster.DummyJobSent |
| batch_hit_finder.py:38-39 | `f[:-1]` drops the last character of every line, also when the manifest's last line has no newline | the manifest `a.h5` with no final newline | drop only a trailing newline, as util/batch_peak_powder.py does | high, not executed | Manifest.HitFinderTruncatesLastPath | Manifest.PowderFilesRoundTrip |
| util/batch_peak_powder.py:113-116 | `os.path.dirname` of an output name without a directory is `''`, `os.path.isdir('')` is false, and `os.mkdir('')` raises FileNotFoundError after the grid is built | the default `-o powder.npz` | create the directory only when the output path names one | high, not executed | PowderMaster.BareOutputNeverSaved | PowderMaster.PowderMatchesSequential |
