/** Small shared vocabulary: optional values, results, and the sequence
    operations (flattening, ranges, filtering) the dispatch model is stated in. */
module Common {

  datatype Option<T> = None | Some(value: T)

  /** The outcome of an operation that the source lets raise an exception. */
  datatype Result<T, E> = Ok(value: T) | Err(error: E)

  function Min(a: int, b: int): int
  {
    if a <= b then a else b
  }

  /** Flattening in order: what repeated `results += part` builds in Python. */
  function Concat<T>(ss: seq<seq<T>>): seq<T>
  {
    if |ss| == 0 then [] else Concat(ss[..|ss| - 1]) + ss[|ss| - 1]
  }

  lemma ConcatSnoc<T>(ss: seq<seq<T>>, s: seq<T>)
    ensures Concat(ss + [s]) == Concat(ss) + s
  {
    assert (ss + [s])[..|ss|] == ss;
  }

  lemma {:induction false} ConcatCons<T>(s: seq<T>, ss: seq<seq<T>>)
    ensures Concat([s] + ss) == s + Concat(ss)
    decreases |ss|
  {
    if |ss| == 0 {
      assert [s] + ss == [s];
      assert [s][..0] == [];
    } else {
      var init, last := ss[..|ss| - 1], ss[|ss| - 1];
      assert ([s] + ss)[..|ss|] == [s] + init;
      assert ([s] + ss)[|ss|] == last;
      ConcatCons(s, init);
      assert Concat(ss) == Concat(init) + last;
    }
  }

  lemma CountSnoc<T>(s: seq<T>, y: T, x: T)
    ensures multiset(s + [y])[x] == multiset(s)[x] + (if x == y then 1 else 0)
  {
    assert multiset(s + [y]) == multiset(s) + multiset{y};
  }

  lemma {:induction false} ConcatAppend<T>(a: seq<seq<T>>, b: seq<seq<T>>)
    ensures Concat(a + b) == Concat(a) + Concat(b)
    decreases |b|
  {
    if |b| == 0 {
      assert a + b == a;
    } else {
      var init := b[..|b| - 1];
      assert a + b == (a + init) + [b[|b| - 1]];
      ConcatSnoc(a + init, b[|b| - 1]);
      ConcatAppend(a, init);
      assert b == init + [b[|b| - 1]];
      ConcatSnoc(init, b[|b| - 1]);
    }
  }

  /** The integers lo, lo+1, ..., hi-1 (Python's `range(lo, hi)`). */
  function Interval(lo: nat, hi: nat): (r: seq<nat>)
    requires lo <= hi
    ensures |r| == hi - lo
    ensures forall i :: 0 <= i < |r| ==> r[i] == lo + i
    ensures forall x :: lo <= x < hi ==> x in r
    decreases hi - lo
  {
    if lo == hi then [] else Interval(lo, hi - 1) + [hi - 1]
  }

  /** `range(n)`. */
  function Range(n: nat): (r: seq<nat>)
    ensures |r| == n
    ensures forall i :: 0 <= i < n ==> r[i] == i
  {
    Interval(0, n)
  }

  lemma IntervalSplit(lo: nat, mid: nat, hi: nat)
    requires lo <= mid <= hi
    ensures Interval(lo, mid) + Interval(mid, hi) == Interval(lo, hi)
  {
    var a := Interval(lo, mid) + Interval(mid, hi);
    var b := Interval(lo, hi);
    assert |a| == |b|;
    forall i | 0 <= i < |a|
      ensures a[i] == b[i]
    {
      if i < mid - lo {
        assert a[i] == Interval(lo, mid)[i];
      } else {
        assert a[i] == Interval(mid, hi)[i - (mid - lo)];
      }
    }
  }

  predicate NoDups<T(==)>(s: seq<T>)
  {
    forall i, j :: 0 <= i < j < |s| ==> s[i] != s[j]
  }

  /** The elements of `s` satisfying `p`, in order. */
  function Filter<T>(p: T -> bool, s: seq<T>): (r: seq<T>)
    ensures |r| <= |s|
    ensures forall x :: x in r ==> x in s && p(x)
    ensures forall x :: x in s && p(x) ==> x in r
  {
    assert |s| > 0 ==> s == s[..|s| - 1] + [s[|s| - 1]];
    if |s| == 0 then []
    else Filter(p, s[..|s| - 1]) + (if p(s[|s| - 1]) then [s[|s| - 1]] else [])
  }

  lemma {:induction false} FilterAppend<T>(p: T -> bool, a: seq<T>, b: seq<T>)
    ensures Filter(p, a + b) == Filter(p, a) + Filter(p, b)
    decreases |b|
  {
    if |b| == 0 {
      assert a + b == a;
    } else {
      var init := b[..|b| - 1];
      assert (a + b)[..|a + b| - 1] == a + init;
      var last := b[|b| - 1];
      var tail := if p(last) then [last] else [];
      assert (a + b)[|a + b| - 1] == last;
      assert Filter(p, a + b) == Filter(p, a + init) + tail;
      assert Filter(p, b) == Filter(p, init) + tail;
      FilterAppend(p, a, init);
    }
  }

  /** Removing one occurrence of the same element from two permutations of
      each other leaves permutations of each other. */
  lemma RemoveOne<T>(a': seq<T>, x: T, b1: seq<T>, b2: seq<T>)
    requires multiset(a' + [x]) == multiset(b1 + [x] + b2)
    ensures multiset(a') == multiset(b1 + b2)
  {
    forall y
      ensures multiset(a')[y] == multiset(b1 + b2)[y]
    {
      assert multiset(a' + [x])[y] == multiset(a')[y] + multiset([x])[y];
      assert multiset(b1 + [x] + b2)[y] == multiset(b1)[y] + multiset([x])[y] + multiset(b2)[y];
    }
  }

  lemma FilterSingle<T>(p: T -> bool, x: T)
    ensures Filter(p, [x]) == if p(x) then [x] else []
  {
    assert [x][..0] == [];
  }

  /** Filtering only depends on the multiset of its input: a permutation of
      the input gives a permutation of the output. */
  lemma {:induction false} FilterPermutation<T>(p: T -> bool, a: seq<T>, b: seq<T>)
    requires multiset(a) == multiset(b)
    ensures multiset(Filter(p, a)) == multiset(Filter(p, b))
    decreases |a|
  {
    if |a| == 0 {
      assert |b| == |multiset(b)| == 0;
    } else {
      var x := a[|a| - 1];
      var a' := a[..|a| - 1];
      assert a == a' + [x];
      assert x in multiset(b);
      var k :| 0 <= k < |b| && b[k] == x;
      var b1, b2 := b[..k], b[k + 1..];
      assert b == b1 + [x] + b2;
      RemoveOne(a', x, b1, b2);
      FilterPermutation(p, a', b1 + b2);
      FilterAppend(p, a', [x]);
      FilterAppend(p, b1 + [x], b2);
      FilterAppend(p, b1, [x]);
      FilterAppend(p, b1, b2);
      MultisetMiddle(Filter(p, a'), Filter(p, b1), Filter(p, b2), Filter(p, [x]));
    }
  }

  lemma MultisetMiddle<T>(x: seq<T>, y1: seq<T>, y2: seq<T>, z: seq<T>)
    requires multiset(x) == multiset(y1 + y2)
    ensures multiset(x + z) == multiset(y1 + z + y2)
  {
    calc {
      multiset(x + z);
      multiset(x) + multiset(z);
      multiset(y1) + multiset(y2) + multiset(z);
      multiset(y1 + z + y2);
    }
  }

  /** Filtering keeps every occurrence of an element that passes. */
  lemma {:induction false} FilterKeepsCount<T>(p: T -> bool, s: seq<T>, x: T)
    requires p(x)
    ensures multiset(Filter(p, s))[x] == multiset(s)[x]
    decreases |s|
  {
    if |s| > 0 {
      var init := s[..|s| - 1];
      FilterKeepsCount(p, init, x);
      assert s == init + [s[|s| - 1]];
    }
  }

  /** A duplicate-free sequence has as many distinct elements as entries. */
  lemma {:induction false} NoDupsCard<T>(s: seq<T>)
    requires NoDups(s)
    ensures |Elems(s)| == |s|
    decreases |s|
  {
    if |s| > 0 {
      var init := s[..|s| - 1];
      var x := s[|s| - 1];
      assert s == init + [x];
      assert NoDups(init);
      NoDupsCard(init);
      assert Elems(s) == Elems(init) + {x};
      assert x !in init;
    }
  }

  /** The elements of `s`. */
  function Elems<T>(s: seq<T>): set<T>
  {
    set x | x in s
  }

  /** Number of elements of `s` satisfying `p`. */
  function Count<T>(p: T -> bool, s: seq<T>): nat
  {
    |Filter(p, s)|
  }

  lemma CountPermutation<T>(p: T -> bool, a: seq<T>, b: seq<T>)
    requires multiset(a) == multiset(b)
    ensures Count(p, a) == Count(p, b)
  {
    FilterPermutation(p, a, b);
    assert |multiset(Filter(p, a))| == |multiset(Filter(p, b))|;
  }

  lemma MulLe(a: int, b: int, c: int)
    requires a <= b && c >= 0
    ensures a * c <= b * c
    ensures (a + 1) * c == a * c + c
  {
  }

  lemma MulLt(a: int, b: int, c: int)
    requires a < b && c > 0
    ensures a * c < b * c
  {
  }

  /** f(x) for every x of `s`, concatenated in order. */
  function Gather<T, U>(f: T -> seq<U>, s: seq<T>): seq<U>
  {
    if |s| == 0 then [] else Gather(f, s[..|s| - 1]) + f(s[|s| - 1])
  }

  lemma {:induction false} GatherAppend<T, U>(f: T -> seq<U>, a: seq<T>, b: seq<T>)
    ensures Gather(f, a + b) == Gather(f, a) + Gather(f, b)
    decreases |b|
  {
    if |b| == 0 {
      assert a + b == a;
    } else {
      var init := b[..|b| - 1];
      assert (a + b)[..|a + b| - 1] == a + init;
      GatherAppend(f, a, init);
    }
  }

  /** Gathering a permutation gives a permutation of the gathered elements. */
  lemma {:induction false} GatherPermutation<T, U>(f: T -> seq<U>, a: seq<T>, b: seq<T>)
    requires multiset(a) == multiset(b)
    ensures multiset(Gather(f, a)) == multiset(Gather(f, b))
    decreases |a|
  {
    if |a| == 0 {
      assert |multiset(b)| == 0;
      assert b == [];
    } else {
      var a', x := a[..|a| - 1], a[|a| - 1];
      assert a == a' + [x];
      assert x in multiset(b);
      var j :| 0 <= j < |b| && b[j] == x;
      var b1, b2 := b[..j], b[j + 1..];
      assert b == b1 + [x] + b2;
      RemoveOne(a', x, b1, b2);
      GatherPermutation(f, a', b1 + b2);
      assert Gather(f, [x]) == f(x) by {
        assert [x][..0] == [];
      }
      GatherAppend(f, b1 + [x], b2);
      GatherAppend(f, b1, [x]);
      GatherAppend(f, b1, b2);
    }
  }

  /** Dropping elements that contribute nothing does not change the gathering. */
  lemma {:induction false} GatherFilter<T, U>(f: T -> seq<U>, p: T -> bool, s: seq<T>)
    requires forall x :: !p(x) ==> f(x) == []
    ensures Gather(f, Filter(p, s)) == Gather(f, s)
    decreases |s|
  {
    if |s| > 0 {
      var init, x := s[..|s| - 1], s[|s| - 1];
      GatherFilter(f, p, init);
      GatherAppend(f, Filter(p, init), if p(x) then [x] else []);
      assert [x][..0] == [];
    }
  }
}
