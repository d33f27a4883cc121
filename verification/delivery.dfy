/** What the workers receive, taken together: the master's log split by
    destination. Whatever each note carries (`g`), the ranks' shares add
    up to what the whole log carries, and what the Work notes carry is what
    the tasks handed out carry. */
module Delivery {
  import opened Common
  import opened Dispatch

  /** What the notes of `log` carry, in sending order. */
  function Posted<U>(g: Note -> seq<U>, log: seq<Msg>): seq<U>
  {
    if |log| == 0 then [] else Posted(g, log[..|log| - 1]) + g(log[|log| - 1].note)
  }

  /** What ranks 1..k received, counted together. */
  function Delivered<U>(g: Note -> seq<U>, log: seq<Msg>, k: nat): multiset<U>
  {
    if k == 0 then multiset{} else Delivered(g, log, k - 1) + multiset(Gather(g, Trace(log, k)))
  }

  lemma GatherOne<T, U>(f: T -> seq<U>, x: T)
    ensures Gather(f, [x]) == f(x)
  {
    assert [x][..0] == [];
  }

  /** One more message adds what it carries to its destination's share. */
  lemma DeliveredSnoc<U>(g: Note -> seq<U>, log: seq<Msg>, msg: Msg, k: nat)
    ensures Delivered(g, log + [msg], k)
      == Delivered(g, log, k) + (if 1 <= msg.dest <= k then multiset(g(msg.note)) else multiset{})
  {
    var share := if 1 <= msg.dest <= k then multiset(g(msg.note)) else multiset{};
    var after, before := Delivered(g, log + [msg], k), Delivered(g, log, k);
    forall x
      ensures after[x] == (before + share)[x]
    {
      DeliveredSnocAt(g, log, msg, k, x);
    }
    MultisetExt(after, before + share);
  }

  lemma MultisetExt<U>(a: multiset<U>, b: multiset<U>)
    requires forall x :: a[x] == b[x]
    ensures a == b
  {
  }

  /** DeliveredSnoc, one element at a time. */
  lemma {:induction false} DeliveredSnocAt<U>(g: Note -> seq<U>, log: seq<Msg>, msg: Msg, k: nat, x: U)
    ensures Delivered(g, log + [msg], k)[x]
      == Delivered(g, log, k)[x] + (if 1 <= msg.dest <= k then multiset(g(msg.note))[x] else 0)
    decreases k
  {
    if k > 0 {
      DeliveredSnocAt(g, log, msg, k - 1, x);
      TraceSnoc(log, msg, k);
      if msg.dest == k {
        GatherAppend(g, Trace(log, k), [msg.note]);
        GatherOne(g, msg.note);
      } else {
        assert Trace(log, k) + [] == Trace(log, k);
      }
    }
  }

  lemma {:induction false} DeliveredNothing<U>(g: Note -> seq<U>, k: nat)
    ensures Delivered(g, [], k) == multiset{}
    decreases k
  {
    if k > 0 {
      DeliveredNothing(g, k - 1);
    }
  }

  /** When every message goes to one of the ranks 1..n, their shares
      together are exactly what the log carries. */
  lemma {:induction false} DeliveredAll<U>(g: Note -> seq<U>, log: seq<Msg>, n: nat)
    requires forall k :: 0 <= k < |log| ==> 1 <= log[k].dest <= n
    ensures Delivered(g, log, n) == multiset(Posted(g, log))
    decreases |log|
  {
    if |log| == 0 {
      DeliveredNothing(g, n);
    } else {
      var init, last := log[..|log| - 1], log[|log| - 1];
      assert log == init + [last];
      DeliveredAll(g, init, n);
      DeliveredSnoc(g, init, last, n);
    }
  }

  /** When only Work notes carry anything, the log carries what its tasks
      carry, in handing-out order. */
  lemma {:induction false} PostedIssued<U>(g: Note -> seq<U>, p: Task -> seq<U>, log: seq<Msg>)
    requires forall t :: g(Work(t)) == p(t)
    requires g(Go) == [] && g(Halt) == []
    ensures Posted(g, log) == Gather(p, Issued(log))
    decreases |log|
  {
    if |log| > 0 {
      var init, last := log[..|log| - 1], log[|log| - 1];
      assert log == init + [last];
      PostedIssued(g, p, init);
      TraceSnoc(init, last, 0);
      if last.note.Work? {
        GatherAppend(p, Issued(init), [last.note.task]);
        GatherOne(p, last.note.task);
      } else {
        assert g(last.note) == [];
        assert Posted(g, log) == Posted(g, init) + [];
        assert Issued(log) == Issued(init) + [] == Issued(init);
        assert Posted(g, init) + [] == Posted(g, init);
      }
    }
  }
}
