/** One pass of a master loop over its workers: every worker in the
    pass's order has its request tested once; the finished ones are handled
    by `Dispatch.Complete`. util/batch_peak2cxi.py and
    util/batch_peak_powder.py walk a Python set, so the order is whatever
    the set yields; the model takes it as an input. */
module Passes {
  import opened Common
  import opened Dispatch

  /** `s` with later repeats dropped. */
  function Dedup<T(==)>(s: seq<T>): (r: seq<T>)
    ensures NoDups(r)
    ensures forall x :: x in r ==> x in s
    ensures forall x :: x in s ==> x in r
  {
    if |s| == 0 then []
    else
      var d := Dedup(s[..|s| - 1]);
      assert s == s[..|s| - 1] + [s[|s| - 1]];
      if s[|s| - 1] in d then d else d + [s[|s| - 1]]
  }

  /** An iteration order over the ranks r in 1..n with p(r): those named
      in `hint` first, in the hint's order, then the rest ascending. */
  function Arrange(hint: seq<nat>, n: nat, p: nat -> bool): (order: seq<nat>)
    ensures NoDups(order)
    ensures forall k :: 0 <= k < |order| ==> 1 <= order[k] <= n && p(order[k])
    ensures forall r :: 1 <= r <= n && p(r) ==> r in order
  {
    var all := Interval(1, n + 1);
    var q := Chosen(n, p);
    var d := Dedup(Filter(q, hint + all));
    assert forall r :: r in d ==> q(r);
    d
  }

  /** The ranks 1..n with p. */
  function Chosen(n: nat, p: nat -> bool): (q: nat -> bool)
    ensures forall r: nat :: q(r) == (1 <= r <= n && p(r))
  {
    (r: nat) => 1 <= r <= n && p(r)
  }

  function Anyone(r: nat): bool
  {
    true
  }

  /** The order of `for slave in set(range(1, size))`. */
  function Order(hint: seq<nat>, n: nat): (order: seq<nat>)
    ensures IsOrder(order, n)
  {
    Arrange(hint, n, Anyone)
  }

  predicate BusyRank(m: Master, r: nat)
  {
    1 <= r <= |m.slots| && m.slots[r - 1].Busy?
  }

  /** The order of `for slave in slaves` after `slaves -= finished_slaves`:
      the workers still waiting on a request. */
  function Visit(m: Master, hint: seq<nat>): (order: seq<nat>)
    ensures NoDups(order)
    ensures forall k :: 0 <= k < |order| ==> BusyRank(m, order[k])
    ensures forall r :: BusyRank(m, r) ==> r in order
  {
    Arrange(hint, |m.slots|, (r: nat) => BusyRank(m, r))
  }

  lemma {:induction false} FilterAll<T>(p: T -> bool, s: seq<T>)
    requires forall k :: 0 <= k < |s| ==> p(s[k])
    ensures Filter(p, s) == s
    decreases |s|
  {
    if |s| > 0 {
      var init := s[..|s| - 1];
      FilterAll(p, init);
      assert Filter(p, s) == init + [s[|s| - 1]];
    }
  }

  lemma {:induction false} DedupNoDups<T>(s: seq<T>)
    requires NoDups(s)
    ensures Dedup(s) == s
    decreases |s|
  {
    if |s| > 0 {
      var init := s[..|s| - 1];
      assert NoDups(init);
      DedupNoDups(init);
      assert s[|s| - 1] !in init;
    }
  }

  lemma {:induction false} DedupAbsorbs<T>(a: seq<T>, b: seq<T>)
    requires forall x :: x in b ==> x in a
    ensures Dedup(a + b) == Dedup(a)
    decreases |b|
  {
    if |b| == 0 {
      assert a + b == a;
    } else {
      var init := b[..|b| - 1];
      assert (a + b)[..|a + b| - 1] == a + init;
      DedupAbsorbs(a, init);
    }
  }

  /** Every order of the chosen ranks is reachable: whatever order a set
      yields, some hint produces it. */
  lemma ArrangeReachesEveryOrder(order: seq<nat>, n: nat, p: nat -> bool)
    requires NoDups(order)
    requires forall k :: 0 <= k < |order| ==> 1 <= order[k] <= n && p(order[k])
    requires forall r :: 1 <= r <= n && p(r) ==> r in order
    ensures Arrange(order, n, p) == order
  {
    var q := Chosen(n, p);
    var all := Interval(1, n + 1);
    FilterAppend(q, order, all);
    FilterAll(q, order);
    assert Filter(q, order + all) == order + Filter(q, all);
    DedupAbsorbs(order, Filter(q, all));
    DedupNoDups(order);
  }

  /** What a pass leaves: the master, and whether every polled worker had
      finished (`all_done`). */
  datatype Swept = Swept(m: Master, allDone: bool)

  /** `finished, result = reqs[slave].test()` and what follows it: a
      finished worker is handled by `Complete`; testing a worker with no
      pending request is a fault. */
  function Poll(m: Master, r: nat, done: set<nat>, nbJobs: nat): (s: Result<Swept, Fault>)
    requires IsRank(m, r)
    ensures s.Ok? <==> m.slots[r - 1].Busy?
    ensures s.Ok? ==> |s.value.m.slots| == |m.slots|
    ensures s.Ok? ==> (s.value.allDone <==> r in done)
    ensures s.Ok? && r !in done ==> s.value.m == m
  {
    if !m.slots[r - 1].Busy? then Err(StaleRequest(r))
    else if r in done then Ok(Swept(Complete(m, r, nbJobs).value, true))
    else Ok(Swept(m, false))
  }

  /** One pass over the workers in `visit`. */
  function Pass(m: Master, visit: seq<nat>, done: set<nat>, nbJobs: nat): (s: Result<Swept, Fault>)
    requires forall k :: 0 <= k < |visit| ==> 1 <= visit[k] <= |m.slots|
    ensures s.Ok? ==> |s.value.m.slots| == |m.slots|
    ensures s.Ok? ==> (s.value.allDone <==> forall k :: 0 <= k < |visit| ==> visit[k] in done)
    ensures s.Ok? ==> forall i :: 0 <= i < |m.slots| && i + 1 !in visit ==> s.value.m.slots[i] == m.slots[i]
    ensures s.Ok? ==> forall i :: 0 <= i < |m.slots| && !m.slots[i].Idle? ==> !s.value.m.slots[i].Idle?
    ensures s.Ok? ==> s.value.m.cursor >= m.cursor
  {
    if |visit| == 0 then Ok(Swept(m, true))
    else
      var init, r := visit[..|visit| - 1], visit[|visit| - 1];
      match Pass(m, init, done, nbJobs)
      case Err(e) => Err(e)
      case Ok(sw) =>
        match Poll(sw.m, r, done, nbJobs)
        case Err(e) => Err(e)
        case Ok(sw') => Ok(Swept(sw'.m, sw.allDone && sw'.allDone))
  }

  /** A pass keeps the dispatch invariant. */
  lemma {:induction false} PassPreservesInv(m: Master, visit: seq<nat>, done: set<nat>, nbJobs: nat)
    requires forall k :: 0 <= k < |visit| ==> 1 <= visit[k] <= |m.slots|
    requires Inv(m, nbJobs)
    requires Pass(m, visit, done, nbJobs).Ok?
    ensures Inv(Pass(m, visit, done, nbJobs).value.m, nbJobs)
    decreases |visit|
  {
    if |visit| > 0 {
      var init, r := visit[..|visit| - 1], visit[|visit| - 1];
      PassPreservesInv(m, init, done, nbJobs);
      var m1 := Pass(m, init, done, nbJobs).value.m;
      if r in done {
        CompletePreservesInv(m1, r, nbJobs);
      }
    }
  }

  /** Polling each waiting worker once never tests a stale request. */
  lemma {:induction false} PassNeverStale(m: Master, visit: seq<nat>, done: set<nat>, nbJobs: nat)
    requires NoDups(visit)
    requires forall k :: 0 <= k < |visit| ==> BusyRank(m, visit[k])
    requires forall k :: 0 <= k < |visit| ==> 1 <= visit[k] <= |m.slots|
    ensures Pass(m, visit, done, nbJobs).Ok?
    decreases |visit|
  {
    if |visit| > 0 {
      var init, r := visit[..|visit| - 1], visit[|visit| - 1];
      assert NoDups(init);
      PassNeverStale(m, init, done, nbJobs);
      assert r !in init;
    }
  }

  /** Once the jobs are used up, every polled worker that had finished is
      stopped, and every other worker keeps its slot. */
  lemma {:induction false} PassStopsFinished(m: Master, visit: seq<nat>, done: set<nat>, nbJobs: nat)
    requires forall k :: 0 <= k < |visit| ==> 1 <= visit[k] <= |m.slots|
    requires NoDups(visit) && m.cursor >= nbJobs
    requires Pass(m, visit, done, nbJobs).Ok?
    ensures var m' := Pass(m, visit, done, nbJobs).value.m;
      forall i :: 0 <= i < |m.slots| ==>
        m'.slots[i] == if i + 1 in visit && i + 1 in done then Stopped else m.slots[i]
    decreases |visit|
  {
    if |visit| > 0 {
      var init, r := visit[..|visit| - 1], visit[|visit| - 1];
      assert NoDups(init);
      assert visit == init + [r];
      PassStopsFinished(m, init, done, nbJobs);
    }
  }
}
