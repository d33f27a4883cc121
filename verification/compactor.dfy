/** The worker side of util/batch_peak2cxi.py: hits (frames whose peak
    count reaches `min_peak`) collect in a buffer that is written out as a
    numbered file every time it holds `cxi_size` frames, and once more, if
    anything is left, when the stop flag arrives. */
module Compactor {
  import opened Common
  import opened Units

  /** `'%s-rank%d-job%d.cxi' % (prefix, rank, count)`, kept as its parts. */
  datatype CxiName = CxiName(prefix: string, rank: int, count: int)

  datatype CxiFile = CxiFile(name: CxiName, frames: seq<Record>)

  datatype Config = Config(prefix: string, rank: int, minPeak: int, cxiSize: int)

  /** The pending `batch`, the number `count` of the next file, and the
      files written so far. */
  datatype Buffer = Buffer(batch: seq<Record>, count: int, written: seq<CxiFile>)

  const Start := Buffer([], 0, [])

  /** One frame of a job: kept if it is a hit; then, if the batch has
      reached `cxi_size`, it is written, cleared and `count` moves on. */
  function Feed(cfg: Config, b: Buffer, r: Record): Buffer
  {
    var batch := if IsHit(cfg.minPeak, r) then b.batch + [r] else b.batch;
    if |batch| == cfg.cxiSize then
      Buffer([], b.count + 1, b.written + [CxiFile(CxiName(cfg.prefix, cfg.rank, b.count), batch)])
    else
      Buffer(batch, b.count, b.written)
  }

  /** The frames `rs` fed in order. */
  function FeedAll(cfg: Config, b: Buffer, rs: seq<Record>): Buffer
  {
    if |rs| == 0 then b else Feed(cfg, FeedAll(cfg, b, rs[..|rs| - 1]), rs[|rs| - 1])
  }

  /** After the stop flag: a non-empty remainder is written under the
      current count (which is not advanced afterwards). */
  function Shutdown(cfg: Config, b: Buffer): seq<CxiFile>
  {
    if |b.batch| > 0 then b.written + [CxiFile(CxiName(cfg.prefix, cfg.rank, b.count), b.batch)]
    else b.written
  }

  /** The frames of every file, in writing order. */
  function Contents(files: seq<CxiFile>): (r: seq<seq<Record>>)
    ensures |r| == |files|
    ensures forall k :: 0 <= k < |files| ==> r[k] == files[k].frames
  {
    seq(|files|, k requires 0 <= k < |files| => files[k].frames)
  }

  /** The worker's `slave_run` over the jobs it receives before the stop
      flag: every job goes back unchanged, and the files are what feeding
      all their frames in receipt order and then shutting down writes. */
  method Serve(cfg: Config, jobs: seq<seq<Record>>) returns (returned: seq<seq<Record>>, files: seq<CxiFile>)
    ensures returned == jobs
    ensures files == Shutdown(cfg, FeedAll(cfg, Start, Concat(jobs)))
  {
    var b := Start;
    returned := [];
    var j := 0;
    while j < |jobs|
      invariant 0 <= j <= |jobs|
      invariant returned == jobs[..j]
      invariant b == FeedAll(cfg, Start, Concat(jobs[..j]))
    {
      b := FeedJob(cfg, b, Concat(jobs[..j]), jobs[j]);
      assert jobs[..j + 1] == jobs[..j] + [jobs[j]];
      ConcatSnoc(jobs[..j], jobs[j]);
      returned := returned + [jobs[j]];
      j := j + 1;
    }
    assert jobs[..|jobs|] == jobs;
    files := Shutdown(cfg, b);
  }

  /** `for i in range(len(job))`: the frames of one job fed in order, after
      the frames `done` of the earlier jobs. */
  method FeedJob(cfg: Config, b: Buffer, done: seq<Record>, job: seq<Record>) returns (b': Buffer)
    requires b == FeedAll(cfg, Start, done)
    ensures b' == FeedAll(cfg, Start, done + job)
  {
    b' := b;
    var i := 0;
    assert done + job[..0] == done;
    while i < |job|
      invariant 0 <= i <= |job|
      invariant b' == FeedAll(cfg, Start, done + job[..i])
    {
      FeedAllSnoc(cfg, done + job[..i], job[i]);
      assert done + job[..i + 1] == (done + job[..i]) + [job[i]];
      b' := Feed(cfg, b', job[i]);
      i := i + 1;
    }
    assert job[..|job|] == job;
  }

  lemma FeedAllSnoc(cfg: Config, rs: seq<Record>, r: Record)
    ensures FeedAll(cfg, Start, rs + [r]) == Feed(cfg, FeedAll(cfg, Start, rs), r)
  {
    assert (rs + [r])[..|rs|] == rs;
  }

  /** What holds between frames: the files written so far followed by the
      batch are exactly the hits seen, in order; the batch stays below
      `cxi_size`; every written file is full; and the files are numbered
      0, 1, 2, ... with `count` the next number. */
  predicate Compacted(cfg: Config, b: Buffer, rs: seq<Record>)
  {
    && Concat(Contents(b.written)) + b.batch == Hits(cfg.minPeak, rs)
    && 0 <= |b.batch| < cfg.cxiSize
    && (forall k :: 0 <= k < |b.written| ==> |b.written[k].frames| == cfg.cxiSize)
    && (forall k :: 0 <= k < |b.written| ==> b.written[k].name == CxiName(cfg.prefix, cfg.rank, k))
    && b.count == |b.written|
  }

  lemma ContentsSnoc(files: seq<CxiFile>, f: CxiFile)
    ensures Contents(files + [f]) == Contents(files) + [f.frames]
  {
  }

  /** One frame keeps the compaction invariant. */
  lemma FeedCompacts(cfg: Config, b: Buffer, rs: seq<Record>, r: Record)
    requires cfg.cxiSize >= 1
    requires Compacted(cfg, b, rs)
    ensures Compacted(cfg, Feed(cfg, b, r), rs + [r])
  {
    HitsSnoc(cfg.minPeak, rs, r);
    var batch := if IsHit(cfg.minPeak, r) then b.batch + [r] else b.batch;
    assert Concat(Contents(b.written)) + batch == Hits(cfg.minPeak, rs + [r]);
    if |batch| == cfg.cxiSize {
      FlushCompacts(cfg, b, batch, Hits(cfg.minPeak, rs + [r]));
    }
  }

  /** Writing a full batch as the next file keeps the files in order. */
  lemma FlushCompacts(cfg: Config, b: Buffer, batch: seq<Record>, hits: seq<Record>)
    requires cfg.cxiSize >= 1 && |batch| == cfg.cxiSize
    requires Concat(Contents(b.written)) + batch == hits
    requires forall k :: 0 <= k < |b.written| ==> |b.written[k].frames| == cfg.cxiSize
    requires forall k :: 0 <= k < |b.written| ==> b.written[k].name == CxiName(cfg.prefix, cfg.rank, k)
    requires b.count == |b.written|
    ensures var f := CxiFile(CxiName(cfg.prefix, cfg.rank, b.count), batch);
      && Concat(Contents(b.written + [f])) == hits
      && (forall k :: 0 <= k < |b.written + [f]| ==> |(b.written + [f])[k].frames| == cfg.cxiSize)
      && (forall k :: 0 <= k < |b.written + [f]| ==> (b.written + [f])[k].name == CxiName(cfg.prefix, cfg.rank, k))
  {
    var f := CxiFile(CxiName(cfg.prefix, cfg.rank, b.count), batch);
    ContentsSnoc(b.written, f);
    ConcatSnoc(Contents(b.written), batch);
  }

  lemma {:induction false} FeedAllCompacts(cfg: Config, rs: seq<Record>)
    requires cfg.cxiSize >= 1
    ensures Compacted(cfg, FeedAll(cfg, Start, rs), rs)
    decreases |rs|
  {
    if |rs| == 0 {
      assert Hits(cfg.minPeak, rs) == [];
      assert Contents([]) == [];
    } else {
      var init, r := rs[..|rs| - 1], rs[|rs| - 1];
      FeedAllCompacts(cfg, init);
      FeedCompacts(cfg, FeedAll(cfg, Start, init), init, r);
      assert init + [r] == rs;
    }
  }

  lemma {:induction false} FullFilesLength(files: seq<CxiFile>, size: int)
    requires forall k :: 0 <= k < |files| ==> |files[k].frames| == size
    ensures |Concat(Contents(files))| == |files| * size
    decreases |files|
  {
    if |files| > 0 {
      var init := files[..|files| - 1];
      FullFilesLength(init, size);
      assert files == init + [files[|files| - 1]];
      ContentsSnoc(init, files[|files| - 1]);
      ConcatSnoc(Contents(init), files[|files| - 1].frames);
      MulLe(|init|, |init|, size);
    }
  }

  lemma DivUnique(x: int, q: int, c: int, r: int)
    requires c > 0 && 0 <= r < c && x == q * c + r
    ensures x / c == q
  {
    var q', r' := x / c, x % c;
    assert x == q' * c + r' && 0 <= r' < c;
    if q' < q {
      MulLe(q' + 1, q, c);
      assert false;
    } else if q' > q {
      MulLe(q + 1, q', c);
      assert false;
    }
  }

  /** The hits a worker has written after the final flush, for a positive
      `cxi_size`: the files concatenate to exactly the hits it received,
      in receipt order; they are numbered 0, 1, 2, ... under its prefix and
      rank; every file but the last holds `cxi_size` frames and the last
      between 1 and `cxi_size`. */
  lemma CompactionWritesAllHits(cfg: Config, rs: seq<Record>)
    requires cfg.cxiSize >= 1
    ensures var files := Shutdown(cfg, FeedAll(cfg, Start, rs));
      && Concat(Contents(files)) == Hits(cfg.minPeak, rs)
      && (forall k :: 0 <= k < |files| ==> files[k].name == CxiName(cfg.prefix, cfg.rank, k))
      && (forall k :: 0 <= k < |files| - 1 ==> |files[k].frames| == cfg.cxiSize)
      && (forall k :: 0 <= k < |files| ==> 1 <= |files[k].frames| <= cfg.cxiSize)
  {
    var b := FeedAll(cfg, Start, rs);
    FeedAllCompacts(cfg, rs);
    if |b.batch| > 0 {
      var f := CxiFile(CxiName(cfg.prefix, cfg.rank, b.count), b.batch);
      ContentsSnoc(b.written, f);
      ConcatSnoc(Contents(b.written), b.batch);
    } else {
      assert Concat(Contents(b.written)) + [] == Concat(Contents(b.written));
    }
  }

  /** The number of files a worker writes is ceil(hits / cxi_size). */
  lemma CompactionFileCount(cfg: Config, rs: seq<Record>)
    requires cfg.cxiSize >= 1
    ensures |Shutdown(cfg, FeedAll(cfg, Start, rs))| == (|Hits(cfg.minPeak, rs)| + cfg.cxiSize - 1) / cfg.cxiSize
  {
    var b := FeedAll(cfg, Start, rs);
    FeedAllCompacts(cfg, rs);
    FullFilesLength(b.written, cfg.cxiSize);
    var c := cfg.cxiSize;
    var n := |Hits(cfg.minPeak, rs)|;
    var w := |b.written|;
    assert n == w * c + |b.batch| by {
      assert |Concat(Contents(b.written)) + b.batch| == |Concat(Contents(b.written))| + |b.batch|;
    }
    if |b.batch| > 0 {
      assert n + c - 1 == (w + 1) * c + (|b.batch| - 1);
      DivUnique(n + c - 1, w + 1, c, |b.batch| - 1);
    } else {
      assert n + c - 1 == w * c + (c - 1);
      DivUnique(n + c - 1, w, c, c - 1);
    }
  }

  /** What holds between frames when `cxi_size` is 0: the batch holds every
      hit so far; one empty file was written for each frame before the
      first hit, numbered from 0, and none after it. */
  predicate ZeroSized(cfg: Config, b: Buffer, rs: seq<Record>)
  {
    && b.batch == Hits(cfg.minPeak, rs)
    && |b.written| <= |rs|
    && (forall j :: 0 <= j < |b.written| ==> !IsHit(cfg.minPeak, rs[j]))
    && (|b.written| < |rs| ==> IsHit(cfg.minPeak, rs[|b.written|]))
    && (forall k :: 0 <= k < |b.written| ==> b.written[k] == CxiFile(CxiName(cfg.prefix, cfg.rank, k), []))
    && b.count == |b.written|
  }

  /** Frames without a hit have no hits. */
  lemma {:induction false} NoHitsAmongMisses(minPeak: int, rs: seq<Record>)
    requires forall j :: 0 <= j < |rs| ==> !IsHit(minPeak, rs[j])
    ensures Hits(minPeak, rs) == []
    decreases |rs|
  {
    if |rs| > 0 {
      var init := rs[..|rs| - 1];
      assert forall j :: 0 <= j < |init| ==> init[j] == rs[j];
      NoHitsAmongMisses(minPeak, init);
      HitsSnoc(minPeak, init, rs[|rs| - 1]);
      assert init + [rs[|rs| - 1]] == rs;
    }
  }

  /** One frame keeps ZeroSized. */
  lemma ZeroSizeFeed(cfg: Config, b: Buffer, rs: seq<Record>, r: Record)
    requires cfg.cxiSize == 0
    requires ZeroSized(cfg, b, rs)
    ensures ZeroSized(cfg, Feed(cfg, b, r), rs + [r])
  {
    HitsSnoc(cfg.minPeak, rs, r);
    var rs' := rs + [r];
    var w := |b.written|;
    if w == |rs| {
      NoHitsAmongMisses(cfg.minPeak, rs);
      assert rs'[w] == r;
    } else {
      assert rs'[w] == rs[w];
      assert rs[w] in Hits(cfg.minPeak, rs);
    }
    assert forall j :: 0 <= j < w ==> rs'[j] == rs[j];
  }

  lemma {:induction false} ZeroSizeFeedAll(cfg: Config, rs: seq<Record>)
    requires cfg.cxiSize == 0
    ensures ZeroSized(cfg, FeedAll(cfg, Start, rs), rs)
    decreases |rs|
  {
    if |rs| > 0 {
      var init := rs[..|rs| - 1];
      assert rs == init + [rs[|rs| - 1]];
      ZeroSizeFeedAll(cfg, init);
      ZeroSizeFeed(cfg, FeedAll(cfg, Start, init), init, rs[|rs| - 1]);
    }
  }

  /** A zero `cxi_size`: the batch never has length 0 again once it holds
      a hit, so the worker writes one empty file for each frame before the
      first hit, numbered from 0, then nothing until the final flush writes
      every hit, in order, as one file. */
  lemma ZeroSizeWritesBeforeFirstHit(cfg: Config, rs: seq<Record>)
    requires cfg.cxiSize == 0
    ensures var b := FeedAll(cfg, Start, rs);
      && |b.written| <= |rs|
      && (forall j :: 0 <= j < |b.written| ==> !IsHit(cfg.minPeak, rs[j]))
      && (|b.written| < |rs| ==> IsHit(cfg.minPeak, rs[|b.written|]))
      && (forall k :: 0 <= k < |b.written| ==> b.written[k] == CxiFile(CxiName(cfg.prefix, cfg.rank, k), []))
      && Shutdown(cfg, b) == b.written +
           (if |Hits(cfg.minPeak, rs)| > 0 then [CxiFile(CxiName(cfg.prefix, cfg.rank, |b.written|), Hits(cfg.minPeak, rs))] else [])
  {
    ZeroSizeFeedAll(cfg, rs);
  }

  lemma {:induction false} NegativeSizeFeedAll(cfg: Config, rs: seq<Record>)
    requires cfg.cxiSize < 0
    ensures FeedAll(cfg, Start, rs) == Buffer(Hits(cfg.minPeak, rs), 0, [])
    decreases |rs|
  {
    if |rs| > 0 {
      var init := rs[..|rs| - 1];
      NegativeSizeFeedAll(cfg, init);
      HitsSnoc(cfg.minPeak, init, rs[|rs| - 1]);
      assert init + [rs[|rs| - 1]] == rs;
    }
  }

  /** A negative `cxi_size`: the batch never reaches it, so the only file
      is the final flush of every hit, numbered 0. */
  lemma NegativeSizeWritesAtEnd(cfg: Config, rs: seq<Record>)
    requires cfg.cxiSize < 0
    ensures Shutdown(cfg, FeedAll(cfg, Start, rs))
      == if |Hits(cfg.minPeak, rs)| > 0 then [CxiFile(CxiName(cfg.prefix, cfg.rank, 0), Hits(cfg.minPeak, rs))] else []
  {
    NegativeSizeFeedAll(cfg, rs);
  }
  /** Files that hold no frame contribute nothing to the frames written. */
  lemma {:induction false} EmptyFilesHoldNothing(files: seq<CxiFile>)
    requires forall k :: 0 <= k < |files| ==> files[k].frames == []
    ensures Concat(Contents(files)) == []
    decreases |files|
  {
    if |files| > 0 {
      var init, last := files[..|files| - 1], files[|files| - 1];
      assert init + [last] == files;
      EmptyFilesHoldNothing(init);
      ContentsSnoc(init, last);
      ConcatSnoc(Contents(init), last.frames);
    }
  }

  /** Whatever `cxi_size` is, the files a worker writes hold its hits, each
      once and in receipt order: positive sizes through full batches, zero
      through empty files and one final flush, negative sizes through the
      final flush alone. */
  lemma AllSizesWriteAllHits(cfg: Config, rs: seq<Record>)
    ensures Concat(Contents(Shutdown(cfg, FeedAll(cfg, Start, rs)))) == Hits(cfg.minPeak, rs)
  {
    var hits := Hits(cfg.minPeak, rs);
    if cfg.cxiSize >= 1 {
      CompactionWritesAllHits(cfg, rs);
    } else if cfg.cxiSize == 0 {
      var b := FeedAll(cfg, Start, rs);
      ZeroSizeWritesBeforeFirstHit(cfg, rs);
      EmptyFilesHoldNothing(b.written);
      if |hits| > 0 {
        var f := CxiFile(CxiName(cfg.prefix, cfg.rank, |b.written|), hits);
        ContentsSnoc(b.written, f);
        ConcatSnoc(Contents(b.written), hits);
      }
    } else {
      NegativeSizeWritesAtEnd(cfg, rs);
      if |hits| > 0 {
        var f := CxiFile(CxiName(cfg.prefix, cfg.rank, 0), hits);
        ContentsSnoc([], f);
        ConcatSnoc<Record>([], hits);
      }
    }
  }
}
