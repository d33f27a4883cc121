/** The per-job work of a worker in batch_hit_finder.py (annotate every
    frame with its peak count) and util/batch_peak_powder.py (collect the
    strong peaks of every frame), with the single-entry file cache both use. */
module Worker {
  import opened Common
  import opened Units

  /** The external peak finder applied to frame `frame` read through a file
      handle opened on the given path: the strong peaks, or None. */
  type Kernel = (string, int) -> Option<seq<Peak>>

  /** `len(peaks_dict['strong'])`, or 0 when it is None. */
  function PeakCount(strong: Option<seq<Peak>>): nat
  {
    match strong
    case None => 0
    case Some(ps) => |ps|
  }

  /** What a frame adds to the powder worker's peak list: nothing when
      the strong peaks are None. */
  function StrongPeaks(strong: Option<seq<Peak>>): seq<Peak>
  {
    match strong
    case None => []
    case Some(ps) => ps
  }

  function Paths(job: seq<Frame>): (r: seq<string>)
    ensures |r| == |job|
    ensures forall i :: 0 <= i < |job| ==> r[i] == job[i].filepath
  {
    seq(|job|, i requires 0 <= i < |job| => job[i].filepath)
  }

  /** The path of the cached handle after visiting `paths`. */
  function LastPath(cached: Option<string>, paths: seq<string>): Option<string>
  {
    if |paths| == 0 then cached else Some(paths[|paths| - 1])
  }

  /** The files opened while visiting `paths` with `cached` the path of the
      handle opened last: a path is opened exactly when it differs from the
      previously used one. */
  function Opens(cached: Option<string>, paths: seq<string>): seq<string>
  {
    if |paths| == 0 then []
    else
      var init := paths[..|paths| - 1];
      var p := paths[|paths| - 1];
      Opens(cached, init) + (if LastPath(cached, init) == Some(p) then [] else [p])
  }

  /** Visiting one more path opens it exactly when the cached handle is
      for another path, and leaves its handle cached. */
  lemma OpensStep(cached: Option<string>, paths: seq<string>, i: nat)
    requires i < |paths|
    ensures LastPath(cached, paths[..i + 1]) == Some(paths[i])
    ensures Opens(cached, paths[..i + 1])
      == Opens(cached, paths[..i]) + (if LastPath(cached, paths[..i]) == Some(paths[i]) then [] else [paths[i]])
  {
    assert paths[..i + 1][..i] == paths[..i];
  }

  /** The job as a worker returns it: every frame in place and in order,
      now carrying its peak count. */
  function Annotated(job: seq<Frame>, kernel: Kernel): (out: seq<Record>)
    ensures |out| == |job|
    ensures forall i :: 0 <= i < |job| ==> out[i].frame == job[i]
    ensures forall i :: 0 <= i < |job| ==> out[i].nbPeak == PeakCount(kernel(job[i].filepath, job[i].frame))
  {
    seq(|job|, i requires 0 <= i < |job| => Record(job[i], PeakCount(kernel(job[i].filepath, job[i].frame))))
  }

  /** Every frame of the job returned in place and in order, now carrying
      its peak count; the file is read through the cached handle, which is
      replaced only when a frame's path differs from the cached one. */
  method AnnotateJob(job: seq<Frame>, cached: Option<string>, kernel: Kernel)
    returns (out: seq<Record>, cached': Option<string>, openedFiles: seq<string>)
    ensures |out| == |job|
    ensures forall i :: 0 <= i < |job| ==> out[i].frame == job[i]
    ensures forall i :: 0 <= i < |job| ==> out[i].nbPeak == PeakCount(kernel(job[i].filepath, job[i].frame))
    ensures out == Annotated(job, kernel)
    ensures openedFiles == Opens(cached, Paths(job))
    ensures cached' == LastPath(cached, Paths(job))
  {
    var paths := Paths(job);
    out, cached', openedFiles := [], cached, [];
    var i := 0;
    while i < |job|
      invariant 0 <= i <= |job|
      invariant |out| == i
      invariant forall t :: 0 <= t < i ==> out[t].frame == job[t]
      invariant forall t :: 0 <= t < i ==> out[t].nbPeak == PeakCount(kernel(job[t].filepath, job[t].frame))
      invariant openedFiles == Opens(cached, paths[..i])
      invariant cached' == LastPath(cached, paths[..i])
    {
      OpensStep(cached, paths, i);
      var path := job[i].filepath;
      if cached' != Some(path) {
        cached' := Some(path);
        openedFiles := openedFiles + [path];
      }
      var strong := kernel(cached'.value, job[i].frame);
      out := out + [Record(job[i], PeakCount(strong))];
      i := i + 1;
    }
    assert paths[..|job|] == paths;
  }

  /** The peaks the powder worker gathers from a job: every frame's strong
      peaks, in frame order. */
  function JobPeaks(job: seq<Frame>, kernel: Kernel): seq<Peak>
  {
    Concat(seq(|job|, i requires 0 <= i < |job| => StrongPeaks(kernel(job[i].filepath, job[i].frame))))
  }

  /** util/batch_peak_powder.py's per-job loop: the concatenation of the
      frames' strong peaks, through the same single-entry file cache. */
  method CollectPeaks(job: seq<Frame>, cached: Option<string>, kernel: Kernel)
    returns (peaks: seq<Peak>, cached': Option<string>, openedFiles: seq<string>)
    ensures peaks == JobPeaks(job, kernel)
    ensures openedFiles == Opens(cached, Paths(job))
    ensures cached' == LastPath(cached, Paths(job))
  {
    var paths := Paths(job);
    var parts := seq(|job|, i requires 0 <= i < |job| => StrongPeaks(kernel(job[i].filepath, job[i].frame)));
    peaks, cached', openedFiles := [], cached, [];
    var i := 0;
    while i < |job|
      invariant 0 <= i <= |job|
      invariant peaks == Concat(parts[..i])
      invariant openedFiles == Opens(cached, paths[..i])
      invariant cached' == LastPath(cached, paths[..i])
    {
      OpensStep(cached, paths, i);
      var path := job[i].filepath;
      if cached' != Some(path) {
        cached' := Some(path);
        openedFiles := openedFiles + [path];
      }
      var strong := kernel(cached'.value, job[i].frame);
      assert parts[..i + 1][..i] == parts[..i];
      peaks := peaks + StrongPeaks(strong);
      i := i + 1;
    }
    assert paths[..|job|] == paths;
    assert parts[..|job|] == parts;
  }

  /** The cache persists across jobs: processing two jobs one after the
      other opens what processing their frames as one stream would. */
  lemma {:induction false} OpensAcrossJobs(cached: Option<string>, a: seq<string>, b: seq<string>)
    ensures Opens(cached, a + b) == Opens(cached, a) + Opens(LastPath(cached, a), b)
    decreases |b|
  {
    if |b| == 0 {
      assert a + b == a;
    } else {
      var init := b[..|b| - 1];
      assert (a + b)[..|a + b| - 1] == a + init;
      OpensAcrossJobs(cached, a, init);
      assert LastPath(cached, a + init) == LastPath(LastPath(cached, a), init);
    }
  }

  /** Frames of one container sit together (`paths` never returns to a
      container it left). */
  predicate Grouped(paths: seq<string>)
  {
    forall i, j, k :: 0 <= i < j < k < |paths| && paths[i] == paths[k] ==> paths[j] == paths[i]
  }

  /** When the frames reaching a worker are grouped by container, the
      single-entry cache opens every container exactly once. */
  lemma {:induction false} GroupedOpensEachOnce(paths: seq<string>)
    requires Grouped(paths)
    ensures NoDups(Opens(None, paths))
    ensures forall p :: p in Opens(None, paths) <==> p in paths
    decreases |paths|
  {
    if |paths| > 0 {
      var init := paths[..|paths| - 1];
      var p := paths[|paths| - 1];
      assert Grouped(init);
      GroupedOpensEachOnce(init);
      var prev := Opens(None, init);
      if LastPath(None, init) != Some(p) {
        assert p !in prev;
      }
      assert paths == init + [p];
    }
  }
}
