/** The records that travel inside jobs. */
module Units {
  import opened Common

  /** One frame to process: `{'filepath': ..., 'frame': ...}`. */
  datatype Frame = Frame(filepath: string, frame: int)

  /** A frame with its peak count attached (the `nb_peak` field). */
  datatype Record = Record(frame: Frame, nbPeak: int)

  /** A peak position, already rounded to integer pixel coordinates. */
  datatype Peak = Peak(row: int, col: int)

  /** The hit test shared by the hit statistics and the compaction filter:
      `nb_peak >= min_peak`. */
  predicate IsHit(minPeak: int, r: Record)
  {
    r.nbPeak >= minPeak
  }

  /** `df[df['nb_peak'] >= min_peak]`: the hits among `rs`, in order. */
  function Hits(minPeak: int, rs: seq<Record>): (h: seq<Record>)
    ensures forall r :: r in h <==> r in rs && IsHit(minPeak, r)
  {
    Filter((r: Record) => IsHit(minPeak, r), rs)
  }

  lemma HitsSnoc(minPeak: int, rs: seq<Record>, r: Record)
    ensures Hits(minPeak, rs + [r]) == Hits(minPeak, rs) + (if IsHit(minPeak, r) then [r] else [])
  {
    assert (rs + [r])[..|rs|] == rs;
  }

  lemma HitsAppend(minPeak: int, a: seq<Record>, b: seq<Record>)
    ensures Hits(minPeak, a + b) == Hits(minPeak, a) + Hits(minPeak, b)
  {
    FilterAppend((r: Record) => IsHit(minPeak, r), a, b);
  }

  /** The hit count does not depend on the order the records arrive in. */
  lemma HitsPermutation(minPeak: int, a: seq<Record>, b: seq<Record>)
    requires multiset(a) == multiset(b)
    ensures |Hits(minPeak, a)| == |Hits(minPeak, b)|
    ensures multiset(Hits(minPeak, a)) == multiset(Hits(minPeak, b))
  {
    FilterPermutation((r: Record) => IsHit(minPeak, r), a, b);
    assert |multiset(Hits(minPeak, a))| == |multiset(Hits(minPeak, b))|;
  }
}
