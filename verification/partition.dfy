/** Partitioning frames into jobs, as util/batch_peak2cxi.py does it:
    `nb_jobs = ceil(n / batch_size)` followed by NumPy's `array_split`
    of the frame indices into `nb_jobs` sections. */
module Partition {
  import opened Common

  datatype SplitError =
    | DivisionByZero             // `n / batch_size` with a zero batch size
    | NoSections(sections: int)  // `array_split` refuses fewer than one section

  /** `int(np.ceil(n / batch_size))`: the least integer not below n / b. */
  function NbJobs(n: nat, batchSize: int): (r: Result<int, SplitError>)
    ensures r.Err? <==> batchSize == 0
    ensures r.Err? ==> r.error == DivisionByZero
    ensures batchSize > 0 ==> r.Ok? && r.value >= 0 && r.value * batchSize >= n && (r.value - 1) * batchSize < n
    ensures batchSize < 0 ==> r.Ok? && r.value <= 0 && r.value * batchSize <= n && (r.value - 1) * batchSize > n
  {
    if batchSize == 0 then Err(DivisionByZero)
    else if batchSize > 0 then
      CeilDivPositive(n, batchSize);
      Ok((n + batchSize - 1) / batchSize)
    else
      CeilDivNegative(n, batchSize);
      Ok(-(n / -batchSize))
  }

  lemma CeilDivPositive(n: nat, b: int)
    requires b > 0
    ensures var r := (n + b - 1) / b; r >= 0 && r * b >= n && (r - 1) * b < n
  {
    var r := (n + b - 1) / b;
    var m := (n + b - 1) % b;
    assert n + b - 1 == r * b + m;
    assert (r - 1) * b == r * b - b;
  }

  lemma CeilDivNegative(n: nat, b: int)
    requires b < 0
    ensures var r := -(n / -b); r <= 0 && r * b <= n && (r - 1) * b > n
  {
    var q := n / -b;
    var m := n % -b;
    assert n == q * -b + m;
    assert -q * b == q * -b;
    assert (-q - 1) * b == q * -b + -b;
  }

  /** Where section `i` of `array_split(range(n), k)` begins: the first
      `n % k` sections hold one element more than the others. */
  function SectionStart(n: nat, k: nat, i: nat): nat
    requires k > 0
  {
    i * (n / k) + Min(i, n % k)
  }

  lemma SectionStartStep(n: nat, k: nat, i: nat)
    requires k > 0
    ensures SectionStart(n, k, i + 1) == SectionStart(n, k, i) + n / k + (if i < n % k then 1 else 0)
  {
    assert (i + 1) * (n / k) == i * (n / k) + n / k;
  }

  lemma SectionStartEnd(n: nat, k: nat)
    requires k > 0
    ensures SectionStart(n, k, k) == n
  {
    assert n == k * (n / k) + n % k;
  }

  /** Section `i` of `array_split(range(n), k)`. */
  function Section(n: nat, k: nat, i: nat): (s: seq<nat>)
    requires k > 0
    ensures |s| == n / k + (if i < n % k then 1 else 0)
  {
    SectionStartStep(n, k, i);
    Interval(SectionStart(n, k, i), SectionStart(n, k, i + 1))
  }

  /** `np.array_split(np.arange(n), sections)`: `sections` contiguous pieces
      that together list 0..n-1 in order, sized as NumPy documents
      (`n % sections` pieces of `n // sections + 1`, the rest of `n // sections`). */
  function ArraySplit(n: nat, sections: int): (r: Result<seq<seq<nat>>, SplitError>)
    ensures r.Err? <==> sections <= 0
    ensures r.Err? ==> r.error == NoSections(sections)
    ensures r.Ok? ==> |r.value| == sections
    ensures r.Ok? ==> Concat(r.value) == Range(n)
    ensures r.Ok? ==> forall i :: 0 <= i < |r.value| ==> |r.value[i]| == n / sections + (if i < n % sections then 1 else 0)
  {
    if sections <= 0 then Err(NoSections(sections))
    else
      var k: nat := sections;
      var parts := seq(k, i requires 0 <= i < k => Section(n, k, i));
      SectionsConcat(n, k, parts, k);
      SectionStartEnd(n, k);
      assert parts[..k] == parts;
      Ok(parts)
  }

  lemma {:induction false} SectionsConcat(n: nat, k: nat, parts: seq<seq<nat>>, j: nat)
    requires k > 0 && j <= k
    requires |parts| == k && forall i :: 0 <= i < k ==> parts[i] == Section(n, k, i)
    ensures Concat(parts[..j]) == Interval(0, SectionStart(n, k, j))
    decreases j
  {
    if j > 0 {
      SectionsConcat(n, k, parts, j - 1);
      assert parts[..j] == parts[..j - 1] + [parts[j - 1]];
      ConcatSnoc(parts[..j - 1], parts[j - 1]);
      SectionStartStep(n, k, j - 1);
      IntervalSplit(0, SectionStart(n, k, j - 1), SectionStart(n, k, j));
    }
  }

  /** The split succeeds exactly when there is a frame and the batch size is positive. */
  lemma SplitSucceedsIff(n: nat, b: int)
    requires b != 0
    ensures NbJobs(n, b).value > 0 <==> n > 0 && b > 0
  {
    var k := NbJobs(n, b).value;
    if b > 0 && n > 0 && k <= 0 {
      MulLe(k, 0, b);
    }
    if b > 0 && n == 0 && k > 0 {
      MulLe(1, k, b);
    }
  }

  /** With at least one frame and a positive batch size, every job holds
      between 1 and `batch_size` frames. */
  lemma SectionSizeBounds(n: nat, b: int, k: int)
    requires n >= 1 && b >= 1
    requires NbJobs(n, b) == Ok(k)
    ensures k >= 1
    ensures 1 <= n / k
    ensures n / k + (if n % k > 0 then 1 else 0) <= b
  {
    SplitSucceedsIff(n, b);
    assert k * b >= n && (k - 1) * b < n;
    assert k <= n by {
      if k > n {
        MulLe(n, k - 1, b);
        MulLe(1, b, n);
      }
    }
    var q, m := n / k, n % k;
    assert n == q * k + m && 0 <= m < k;
    assert q >= 1 by {
      if q <= 0 {
        MulLe(q, 0, k);
      }
    }
    if m > 0 {
      assert q < b by {
        if q >= b {
          MulLe(b, q, k);
        }
      }
    } else {
      assert q <= b by {
        if q > b {
          MulLt(b, q, k);
        }
      }
    }
  }

  /** `peak_info[ids]`: the elements of `items` at the positions `ids`. */
  function Pick<T>(items: seq<T>, ids: seq<nat>): (r: seq<T>)
    requires forall j :: 0 <= j < |ids| ==> ids[j] < |items|
    ensures |r| == |ids|
  {
    seq(|ids|, j requires 0 <= j < |ids| => items[ids[j]])
  }

  /** Every section lists positions below n. */
  lemma SectionsInRange(n: nat, k: nat)
    requires k > 0
    ensures forall i, j :: 0 <= i < k && 0 <= j < |Section(n, k, i)| ==> Section(n, k, i)[j] < n
  {
    forall i, j | 0 <= i < k && 0 <= j < |Section(n, k, i)|
      ensures Section(n, k, i)[j] < n
    {
      SectionStartMonotone(n, k, i + 1, k);
      SectionStartEnd(n, k);
    }
  }

  /** The loop `for i in range(len(ids)): jobs.append(peak_info[ids[i]])`. */
  function PickAll<T>(items: seq<T>, parts: seq<seq<nat>>): (jobs: seq<seq<T>>)
    requires forall i, j :: 0 <= i < |parts| && 0 <= j < |parts[i]| ==> parts[i][j] < |items|
    ensures |jobs| == |parts|
    ensures forall i :: 0 <= i < |parts| ==> |jobs[i]| == |parts[i]|
  {
    seq(|parts|, i requires 0 <= i < |parts| => Pick(items, parts[i]))
  }

  /** util/batch_peak2cxi.py's job collection: `ceil(n / batch_size)` jobs
      picked out of the frames by `array_split`. */
  function Jobs<T>(items: seq<T>, batchSize: int): Result<seq<seq<T>>, SplitError>
  {
    match NbJobs(|items|, batchSize)
    case Err(e) => Err(e)
    case Ok(k) =>
      match ArraySplit(|items|, k)
      case Err(e) => Err(e)
      case Ok(parts) =>
        SectionsInRange(|items|, k);
        Ok(PickAll(items, parts))
  }

  /** Appending the job of one more section extends the frames covered
      to the end of that section. */
  lemma PickedStep<T>(items: seq<T>, jobs: seq<seq<T>>, j: nat, lo: nat, hi: nat)
    requires 0 < j <= |jobs| && lo <= hi <= |items|
    requires Concat(jobs[..j - 1]) == items[..lo]
    requires jobs[j - 1] == items[lo..hi]
    ensures Concat(jobs[..j]) == items[..hi]
  {
    assert jobs[..j] == jobs[..j - 1] + [jobs[j - 1]];
    ConcatSnoc(jobs[..j - 1], jobs[j - 1]);
    assert items[..hi] == items[..lo] + items[lo..hi];
  }

  /** The jobs of the first j sections concatenate to the frames before
      section j. */
  lemma {:induction false} PickedPrefix<T>(items: seq<T>, k: nat, jobs: seq<seq<T>>, j: nat)
    requires k > 0 && j <= k
    requires forall i, j :: 0 <= i < k && 0 <= j < |Section(|items|, k, i)| ==> Section(|items|, k, i)[j] < |items|
    requires |jobs| == k && forall i :: 0 <= i < k ==> jobs[i] == Pick(items, Section(|items|, k, i))
    ensures SectionStart(|items|, k, j) <= |items|
    ensures Concat(jobs[..j]) == items[..SectionStart(|items|, k, j)]
    decreases j
  {
    var n := |items|;
    SectionStartMonotone(n, k, j, k);
    SectionStartEnd(n, k);
    if j > 0 {
      PickedPrefix(items, k, jobs, j - 1);
      SectionStartStep(n, k, j - 1);
      var lo, hi := SectionStart(n, k, j - 1), SectionStart(n, k, j);
      assert jobs[j - 1] == items[lo..hi] by {
        assert Section(n, k, j - 1) == Interval(lo, hi);
        PickInterval(items, lo, hi);
      }
      PickedStep(items, jobs, j, lo, hi);
    }
  }

  /** The jobs, concatenated in order, give back every frame exactly once;
      there are `ceil(n / batch_size)` of them; their sizes differ by at
      most one, larger jobs first, and each holds between 1 and
      `batch_size` frames. With no frames, or a batch size below one, the
      split fails, and a zero batch size fails in the division. */
  lemma JobsSpec<T>(items: seq<T>, batchSize: int)
    ensures var r := Jobs(items, batchSize);
      && (r.Ok? <==> batchSize > 0 && |items| > 0)
      && (batchSize == 0 ==> r == Err(DivisionByZero))
      && (r.Ok? ==> Concat(r.value) == items)
      && (r.Ok? ==> NbJobs(|items|, batchSize) == Ok(|r.value|))
      && (r.Ok? ==> forall i :: 0 <= i < |r.value| ==> 1 <= |r.value[i]| <= batchSize)
      && (r.Ok? ==> forall i, j :: 0 <= i < j < |r.value| ==> |r.value[j]| <= |r.value[i]| <= |r.value[j]| + 1)
  {
    var n := |items|;
    var nb := NbJobs(n, batchSize);
    if nb.Ok? {
      SplitSucceedsIff(n, batchSize);
      if nb.value > 0 {
        var k: nat := nb.value;
        var parts := ArraySplit(n, k).value;
        assert forall i :: 0 <= i < k ==> parts[i] == Section(n, k, i);
        var jobs := Jobs(items, batchSize).value;
        SectionsInRange(n, k);
        PickedPrefix(items, k, jobs, k);
        SectionStartEnd(n, k);
        assert jobs[..k] == jobs;
        assert items[..n] == items;
        JobSizes(items, batchSize, k, jobs);
      }
    }
  }

  /** The sizes of the jobs: between 1 and `batch_size`, larger jobs first,
      differing by at most one. */
  lemma JobSizes<T>(items: seq<T>, batchSize: int, k: nat, jobs: seq<seq<T>>)
    requires |items| > 0 && batchSize > 0
    requires NbJobs(|items|, batchSize) == Ok(k) && Jobs(items, batchSize) == Ok(jobs)
    ensures |jobs| == k
    ensures forall i :: 0 <= i < |jobs| ==> 1 <= |jobs[i]| <= batchSize
    ensures forall i, j :: 0 <= i < j < |jobs| ==> |jobs[j]| <= |jobs[i]| <= |jobs[j]| + 1
  {
    var n := |items|;
    SectionSizeBounds(n, batchSize, k);
    var parts := ArraySplit(n, k).value;
    assert forall i :: 0 <= i < k ==> |jobs[i]| == n / k + (if i < n % k then 1 else 0);
  }

  lemma {:induction false} SectionStartMonotone(n: nat, k: nat, i: nat, j: nat)
    requires k > 0 && i <= j
    ensures SectionStart(n, k, i) <= SectionStart(n, k, j)
    decreases j - i
  {
    if i < j {
      SectionStartStep(n, k, i);
      SectionStartMonotone(n, k, i + 1, j);
    }
  }

  lemma PickInterval<T>(items: seq<T>, lo: nat, hi: nat)
    requires lo <= hi <= |items|
    ensures Pick(items, Interval(lo, hi)) == items[lo..hi]
  {
  }
}
