/** The dispatch state machine the three master loops share: a cursor
    `job_id` into the job list, one slot per worker rank holding the request
    it was last sent, the results merged so far, and the messages sent. */
module Dispatch {
  import opened Common

  /** What a slot was last sent: a real job (an index into `jobs`) or the
      empty dummy job util/batch_peak_powder.py hands out past the end. */
  datatype Task = Job(index: nat) | Placeholder

  /** A worker as the master sees it: not yet sent anything, waiting on the
      task it holds, or sent the stop flag. */
  datatype Slot = Idle | Busy(task: Task) | Stopped

  /** The payload of one `isend`: a job, or the stop flag as False (`Go`)
      or True (`Halt`). */
  datatype Note = Work(task: Task) | Go | Halt

  datatype Msg = Msg(dest: nat, note: Note)

  /** `slots[r - 1]` is the slot of rank r; `collected` lists the tasks whose
      results were merged, in merge order; `log` lists every message sent. */
  datatype Master = Master(slots: seq<Slot>, cursor: nat, collected: seq<Task>, log: seq<Msg>)

  datatype Fault =
    | JobIndexOutOfRange(index: nat) // `jobs[job_id]` with job_id >= nb_jobs
    | StaleRequest(rank: nat)        // a request that already completed is tested again
    | ModuloByZero                   // `job_id % update_freq` with update_freq == 0

  predicate IsJob(t: Task)
  {
    t.Job?
  }

  /** Job(0), Job(1), ..., Job(k - 1). */
  function JobList(k: nat): (r: seq<Task>)
    ensures |r| == k
    ensures forall i :: 0 <= i < k ==> r[i] == Job(i)
  {
    if k == 0 then [] else JobList(k - 1) + [Job(k - 1)]
  }

  function Initial(n: nat): Master
  {
    Master(seq(n, _ => Idle), 0, [], [])
  }

  predicate IsRank(m: Master, r: nat)
  {
    1 <= r <= |m.slots|
  }

  /** The task a saturation round hands out at cursor `c`: `jobs[c]`, or
      past the end the empty dummy job where the master has one, or else
      the IndexError of `jobs[job_id]`. */
  function Next(c: nat, nbJobs: nat, dummies: bool): (r: Result<Task, Fault>)
    ensures r.Err? <==> c >= nbJobs && !dummies
    ensures r.Ok? ==> (r.value.Job? <==> c < nbJobs) && (r.value.Job? ==> r.value.index == c)
    ensures r.Err? ==> r.error == JobIndexOutOfRange(c)
  {
    if c < nbJobs then Ok(Job(c))
    else if dummies then Ok(Placeholder)
    else Err(JobIndexOutOfRange(c))
  }

  /** One round of the saturation loop: send the next task to `r`, arm a
      receive for it, advance the cursor. */
  function Hand(m: Master, r: nat, nbJobs: nat, dummies: bool): (m': Result<Master, Fault>)
    requires IsRank(m, r)
  {
    match Next(m.cursor, nbJobs, dummies)
    case Err(e) => Err(e)
    case Ok(t) => Ok(m.(slots := m.slots[r - 1 := Busy(t)], cursor := m.cursor + 1, log := m.log + [Msg(r, Work(t))]))
  }

  /** The saturation loop over the workers in `order`. */
  function Saturate(n: nat, order: seq<nat>, nbJobs: nat, dummies: bool): (r: Result<Master, Fault>)
    requires forall k :: 0 <= k < |order| ==> 1 <= order[k] <= n
    ensures r.Ok? ==> |r.value.slots| == n && r.value.cursor == |order|
  {
    if |order| == 0 then Ok(Initial(n))
    else
      match Saturate(n, order[..|order| - 1], nbJobs, dummies)
      case Err(e) => Err(e)
      case Ok(m) => Hand(m, order[|order| - 1], nbJobs, dummies)
  }

  /** A completion observed on rank `r`: the slot's result is merged; then
      either the next job follows a False stop flag, or, once the jobs are
      used up, the True stop flag is sent and the slot is stopped. Testing a
      slot that holds no pending request is a fault. */
  function Complete(m: Master, r: nat, nbJobs: nat): (m': Result<Master, Fault>)
    requires IsRank(m, r)
    ensures m'.Ok? <==> m.slots[r - 1].Busy?
    ensures m'.Err? ==> m'.error == StaleRequest(r)
    ensures m'.Ok? ==> |m'.value.slots| == |m.slots|
    ensures m'.Ok? ==> forall i :: 0 <= i < |m.slots| && i != r - 1 ==> m'.value.slots[i] == m.slots[i]
    ensures m'.Ok? ==> m'.value.collected == m.collected + [m.slots[r - 1].task]
    ensures m'.Ok? && m.cursor < nbJobs ==>
      m'.value.cursor == m.cursor + 1 && m'.value.slots[r - 1] == Busy(Job(m.cursor))
    ensures m'.Ok? && m.cursor >= nbJobs ==>
      m'.value.cursor == m.cursor && m'.value.slots[r - 1] == Stopped
  {
    match m.slots[r - 1]
    case Busy(t) =>
      if m.cursor < nbJobs then
        Ok(Master(m.slots[r - 1 := Busy(Job(m.cursor))], m.cursor + 1, m.collected + [t],
                  m.log + [Msg(r, Go), Msg(r, Work(Job(m.cursor)))]))
      else
        Ok(Master(m.slots[r - 1 := Stopped], m.cursor, m.collected + [t], m.log + [Msg(r, Halt)]))
    case _ => Err(StaleRequest(r))
  }

  // ---------------------------------------------------------------------
  // What the log and the slots say together

  /** The notes sent to rank `r`, in sending order. */
  function Trace(log: seq<Msg>, r: nat): seq<Note>
  {
    if |log| == 0 then []
    else Trace(log[..|log| - 1], r) + (if log[|log| - 1].dest == r then [log[|log| - 1].note] else [])
  }

  /** The tasks handed out, in sending order. */
  function Issued(log: seq<Msg>): seq<Task>
  {
    if |log| == 0 then []
    else Issued(log[..|log| - 1]) + (if log[|log| - 1].note.Work? then [log[|log| - 1].note.task] else [])
  }

  function Holds(s: Slot, t: Task): nat
  {
    if s == Busy(t) then 1 else 0
  }

  /** How many workers hold task `t`. */
  function Held(slots: seq<Slot>, t: Task): nat
  {
    if |slots| == 0 then 0 else Held(slots[..|slots| - 1], t) + Holds(slots[|slots| - 1], t)
  }

  /** A job, then any number of (False flag, job) pairs. */
  predicate Open(t: seq<Note>)
  {
    && |t| % 2 == 1
    && forall i :: 0 <= i < |t| ==> if i % 2 == 0 then t[i].Work? else t[i] == Go
  }

  /** What a worker has received fits what the master believes of it: an
      idle worker nothing; a busy one an open exchange ending in the task it
      holds; a stopped one an open exchange closed by the True flag. */
  predicate Matches(s: Slot, t: seq<Note>)
  {
    match s
    case Idle => |t| == 0
    case Busy(task) => Open(t) && t[|t| - 1] == Work(task)
    case Stopped => |t| >= 2 && Open(t[..|t| - 1]) && t[|t| - 1] == Halt
  }

  /** The notes of one step, all addressed to rank `r`. */
  function Mail(r: nat, notes: seq<Note>): (ms: seq<Msg>)
    ensures |ms| == |notes|
    ensures forall k :: 0 <= k < |ms| ==> ms[k] == Msg(r, notes[k])
  {
    if |notes| == 0 then [] else Mail(r, notes[..|notes| - 1]) + [Msg(r, notes[|notes| - 1])]
  }

  ghost predicate Addressed(slots: seq<Slot>, log: seq<Msg>)
  {
    forall k :: 0 <= k < |log| ==> 1 <= log[k].dest <= |slots|
  }

  ghost predicate Traced(slots: seq<Slot>, log: seq<Msg>)
  {
    forall i :: 0 <= i < |slots| ==> Matches(slots[i], Trace(log, i + 1))
  }

  ghost predicate HandedInOrder(m: Master, nbJobs: nat)
  {
    Filter(IsJob, Issued(m.log)) == JobList(Min(m.cursor, nbJobs))
  }

  ghost predicate Conserved(m: Master)
  {
    forall t :: multiset(m.collected)[t] + Held(m.slots, t) == multiset(Issued(m.log))[t]
  }

  ghost predicate StoppedLate(m: Master, nbJobs: nat)
  {
    forall i :: 0 <= i < |m.slots| && m.slots[i].Stopped? ==> m.cursor >= nbJobs
  }

  /** The invariant of the dispatch loop: messages go to existing ranks;
      each rank's messages fit its slot; the jobs handed out are 0, 1, 2, ...
      up to the cursor, each once; every task handed out has either been
      merged or is still held, and nothing else has been merged; and a slot
      is only stopped once the jobs are used up. */
  ghost predicate Inv(m: Master, nbJobs: nat)
  {
    && Addressed(m.slots, m.log)
    && Traced(m.slots, m.log)
    && HandedInOrder(m, nbJobs)
    && Conserved(m)
    && StoppedLate(m, nbJobs)
  }

  lemma TraceSnoc(log: seq<Msg>, msg: Msg, r: nat)
    ensures Trace(log + [msg], r) == Trace(log, r) + (if msg.dest == r then [msg.note] else [])
    ensures Issued(log + [msg]) == Issued(log) + (if msg.note.Work? then [msg.note.task] else [])
  {
    assert (log + [msg])[..|log|] == log;
  }

  lemma {:induction false} TraceMail(log: seq<Msg>, r: nat, notes: seq<Note>, q: nat)
    ensures Trace(log + Mail(r, notes), q) == Trace(log, q) + (if q == r then notes else [])
    decreases |notes|
  {
    if |notes| == 0 {
      assert log + Mail(r, notes) == log;
    } else {
      var init, last := notes[..|notes| - 1], notes[|notes| - 1];
      TraceMail(log, r, init, q);
      TraceMailStep(log, r, init, last, q);
      assert init + [last] == notes;
    }
  }

  lemma TraceMailStep(log: seq<Msg>, r: nat, init: seq<Note>, last: Note, q: nat)
    requires Trace(log + Mail(r, init), q) == Trace(log, q) + (if q == r then init else [])
    ensures Trace(log + Mail(r, init + [last]), q) == Trace(log, q) + (if q == r then init + [last] else [])
  {
    assert (init + [last])[..|init|] == init;
    assert log + Mail(r, init + [last]) == (log + Mail(r, init)) + [Msg(r, last)];
    TraceSnoc(log + Mail(r, init), Msg(r, last), q);
    if q == r {
      assert Trace(log, q) + init + [last] == Trace(log, q) + (init + [last]);
    } else {
      assert Trace(log, q) + [] + [] == Trace(log, q);
    }
  }

  /** Sending `notes` to rank `r` and setting its slot to `s` keeps every
      rank's messages in line with its slot, provided they fit for `r`. */
  lemma SendKeepsTraced(slots: seq<Slot>, log: seq<Msg>, r: nat, s: Slot, notes: seq<Note>)
    requires Addressed(slots, log) && Traced(slots, log) && 1 <= r <= |slots|
    requires Matches(s, Trace(log, r) + notes)
    ensures Addressed(slots[r - 1 := s], log + Mail(r, notes))
    ensures Traced(slots[r - 1 := s], log + Mail(r, notes))
  {
    var slots', log' := slots[r - 1 := s], log + Mail(r, notes);
    forall i | 0 <= i < |slots'|
      ensures Matches(slots'[i], Trace(log', i + 1))
    {
      SendKeepsOne(slots, log, r, s, notes, i);
    }
    SendKeepsAddressed(slots, log, r, s, notes);
  }

  lemma SendKeepsOne(slots: seq<Slot>, log: seq<Msg>, r: nat, s: Slot, notes: seq<Note>, i: nat)
    requires 1 <= r <= |slots| && i < |slots|
    requires Matches(slots[i], Trace(log, i + 1))
    requires Matches(s, Trace(log, r) + notes)
    ensures Matches(slots[r - 1 := s][i], Trace(log + Mail(r, notes), i + 1))
  {
    var q := i + 1;
    TraceMail(log, r, notes, q);
    if q == r {
      SendReachesTarget(slots, log, r, s, notes);
    } else {
      SendPassesOthers(slots, log, r, s, notes, q);
    }
  }

  lemma SendReachesTarget(slots: seq<Slot>, log: seq<Msg>, r: nat, s: Slot, notes: seq<Note>)
    requires 1 <= r <= |slots|
    requires Trace(log + Mail(r, notes), r) == Trace(log, r) + notes
    requires Matches(s, Trace(log, r) + notes)
    ensures Matches(slots[r - 1 := s][r - 1], Trace(log + Mail(r, notes), r))
  {
  }

  lemma SendPassesOthers(slots: seq<Slot>, log: seq<Msg>, r: nat, s: Slot, notes: seq<Note>, q: nat)
    requires 1 <= r <= |slots| && 1 <= q <= |slots| && q != r
    requires Trace(log + Mail(r, notes), q) == Trace(log, q)
    requires Matches(slots[q - 1], Trace(log, q))
    ensures Matches(slots[r - 1 := s][q - 1], Trace(log + Mail(r, notes), q))
  {
  }

  lemma SendKeepsAddressed(slots: seq<Slot>, log: seq<Msg>, r: nat, s: Slot, notes: seq<Note>)
    requires Addressed(slots, log) && 1 <= r <= |slots|
    ensures Addressed(slots[r - 1 := s], log + Mail(r, notes))
  {
    var log' := log + Mail(r, notes);
    forall k | 0 <= k < |log'|
      ensures 1 <= log'[k].dest <= |slots|
    {
      if k >= |log| {
        assert log'[k] == Mail(r, notes)[k - |log|];
      } else {
        assert log'[k] == log[k];
      }
    }
  }

  lemma OpenExtend(t: seq<Note>, task: Task)
    requires Open(t)
    ensures Open(t + [Go, Work(task)])
  {
    var t' := t + [Go, Work(task)];
    forall i | 0 <= i < |t'|
      ensures if i % 2 == 0 then t'[i].Work? else t'[i] == Go
    {
      if i < |t| {
        assert t'[i] == t[i];
      }
    }
  }

  lemma MatchesHalt(t: seq<Note>, task: Task)
    requires Matches(Busy(task), t)
    ensures Matches(Stopped, t + [Halt])
  {
    assert (t + [Halt])[..|t|] == t;
  }

  lemma {:induction false} HeldUpdate(slots: seq<Slot>, i: nat, s: Slot, t: Task)
    requires i < |slots|
    ensures Held(slots[i := s], t) + Holds(slots[i], t) == Held(slots, t) + Holds(s, t)
    decreases |slots|
  {
    var n := |slots|;
    var init := slots[..n - 1];
    var slots' := slots[i := s];
    if i == n - 1 {
      assert slots'[..n - 1] == init;
    } else {
      assert slots'[..n - 1] == init[i := s];
      HeldUpdate(init, i, s, t);
    }
  }

  /** No worker holds anything once all are stopped (or before any is sent work). */
  lemma {:induction false} HeldNone(slots: seq<Slot>, t: Task)
    requires forall i :: 0 <= i < |slots| ==> !slots[i].Busy?
    ensures Held(slots, t) == 0
    decreases |slots|
  {
    if |slots| > 0 {
      HeldNone(slots[..|slots| - 1], t);
    }
  }

  lemma InitialInv(n: nat, nbJobs: nat)
    ensures Inv(Initial(n), nbJobs)
  {
    forall t
      ensures Held(Initial(n).slots, t) == 0
    {
      HeldNone(Initial(n).slots, t);
    }
  }

  /** Handing out task `t` adds it to the issued tasks. */
  lemma IssueKeepsOrder(m: Master, m': Master, nbJobs: nat, t: Task)
    requires HandedInOrder(m, nbJobs)
    requires Issued(m'.log) == Issued(m.log) + [t]
    requires m'.cursor == m.cursor + 1
    requires t.Job? <==> m.cursor < nbJobs
    requires t.Job? ==> t.index == m.cursor
    ensures HandedInOrder(m', nbJobs)
  {
    FilterAppend(IsJob, Issued(m.log), [t]);
    FilterSingle(IsJob, t);
  }

  /** Replacing slot `i` by `s`, merging what slot `i` held, and handing
      out exactly what `s` holds keeps every task accounted for. */
  lemma StepConserves(m: Master, m': Master, i: nat, s: Slot, issued: seq<Task>)
    requires Conserved(m) && i < |m.slots|
    requires m'.slots == m.slots[i := s]
    requires m'.collected == m.collected + (if m.slots[i].Busy? then [m.slots[i].task] else [])
    requires Issued(m'.log) == Issued(m.log) + issued
    requires forall x :: multiset(issued)[x] == Holds(s, x)
    ensures Conserved(m')
  {
    forall x
      ensures multiset(m'.collected)[x] + Held(m'.slots, x) == multiset(Issued(m'.log))[x]
    {
      HeldUpdate(m.slots, i, s, x);
      assert multiset(m'.collected)[x] == multiset(m.collected)[x] + Holds(m.slots[i], x);
    }
  }

  /** A saturation round keeps the invariant when it reaches an idle slot. */
  lemma HandPreservesInv(m: Master, r: nat, nbJobs: nat, dummies: bool)
    requires Inv(m, nbJobs) && IsRank(m, r) && m.slots[r - 1].Idle?
    requires Hand(m, r, nbJobs, dummies).Ok?
    ensures Inv(Hand(m, r, nbJobs, dummies).value, nbJobs)
  {
    HandKeepsMessages(m, r, nbJobs, dummies);
    HandKeepsAccounts(m, r, nbJobs, dummies);
  }

  lemma HandKeepsMessages(m: Master, r: nat, nbJobs: nat, dummies: bool)
    requires Addressed(m.slots, m.log) && Traced(m.slots, m.log) && HandedInOrder(m, nbJobs)
    requires IsRank(m, r) && m.slots[r - 1].Idle?
    requires Hand(m, r, nbJobs, dummies).Ok?
    ensures var m' := Hand(m, r, nbJobs, dummies).value;
      Addressed(m'.slots, m'.log) && Traced(m'.slots, m'.log) && HandedInOrder(m', nbJobs)
  {
    var t := Next(m.cursor, nbJobs, dummies).value;
    var m' := Hand(m, r, nbJobs, dummies).value;
    HandKeepsTraced(m.slots, m.log, r, t);
    TraceSnoc(m.log, Msg(r, Work(t)), r);
    IssueKeepsOrder(m, m', nbJobs, t);
  }

  lemma HandKeepsAccounts(m: Master, r: nat, nbJobs: nat, dummies: bool)
    requires Conserved(m) && StoppedLate(m, nbJobs)
    requires IsRank(m, r) && m.slots[r - 1].Idle?
    requires Hand(m, r, nbJobs, dummies).Ok?
    ensures var m' := Hand(m, r, nbJobs, dummies).value;
      Conserved(m') && StoppedLate(m', nbJobs)
  {
    var t := Next(m.cursor, nbJobs, dummies).value;
    var m' := Hand(m, r, nbJobs, dummies).value;
    TraceSnoc(m.log, Msg(r, Work(t)), r);
    HoldsOne(t);
    assert m'.collected == m.collected + [];
    StepConserves(m, m', r - 1, Busy(t), [t]);
    StepStoppedLate(m, m', r - 1, Busy(t), nbJobs);
  }

  lemma HandKeepsTraced(slots: seq<Slot>, log: seq<Msg>, r: nat, t: Task)
    requires Addressed(slots, log) && Traced(slots, log)
    requires 1 <= r <= |slots| && slots[r - 1].Idle?
    ensures Addressed(slots[r - 1 := Busy(t)], log + [Msg(r, Work(t))])
    ensures Traced(slots[r - 1 := Busy(t)], log + [Msg(r, Work(t))])
  {
    assert Matches(slots[r - 1], Trace(log, r));
    assert log + [Msg(r, Work(t))] == log + Mail(r, [Work(t)]);
    SendKeepsTraced(slots, log, r, Busy(t), [Work(t)]);
  }

  lemma HoldsOne(t: Task)
    ensures forall x :: multiset([t])[x] == Holds(Busy(t), x)
  {
  }

  /** Replacing slot `i` by `s` keeps a stopped slot behind the last job,
      as long as the cursor does not move back and `s` is only a stop once
      the jobs are used up. */
  lemma StepStoppedLate(m: Master, m': Master, i: nat, s: Slot, nbJobs: nat)
    requires StoppedLate(m, nbJobs) && i < |m.slots|
    requires m'.slots == m.slots[i := s] && m'.cursor >= m.cursor
    requires s.Stopped? ==> m'.cursor >= nbJobs
    ensures StoppedLate(m', nbJobs)
  {
    forall j | 0 <= j < |m'.slots| && m'.slots[j].Stopped?
      ensures m'.cursor >= nbJobs
    {
      if j != i {
        assert m.slots[j].Stopped?;
      }
    }
  }

  /** A completion keeps the invariant. */
  lemma CompletePreservesInv(m: Master, r: nat, nbJobs: nat)
    requires Inv(m, nbJobs) && IsRank(m, r)
    requires Complete(m, r, nbJobs).Ok?
    ensures Inv(Complete(m, r, nbJobs).value, nbJobs)
  {
    if m.cursor < nbJobs {
      CompleteAdvances(m, r, nbJobs);
    } else {
      CompleteStops(m, r, nbJobs);
    }
  }

  lemma CompleteAdvances(m: Master, r: nat, nbJobs: nat)
    requires Inv(m, nbJobs) && IsRank(m, r) && m.slots[r - 1].Busy?
    requires m.cursor < nbJobs
    ensures Inv(Complete(m, r, nbJobs).value, nbJobs)
  {
    AdvanceKeepsMessages(m, r, nbJobs);
    AdvanceKeepsAccounts(m, r, nbJobs);
  }

  lemma AdvanceKeepsMessages(m: Master, r: nat, nbJobs: nat)
    requires Addressed(m.slots, m.log) && Traced(m.slots, m.log) && HandedInOrder(m, nbJobs)
    requires IsRank(m, r) && m.slots[r - 1].Busy? && m.cursor < nbJobs
    ensures var m' := Complete(m, r, nbJobs).value;
      Addressed(m'.slots, m'.log) && Traced(m'.slots, m'.log) && HandedInOrder(m', nbJobs)
  {
    var m' := Complete(m, r, nbJobs).value;
    var next := Job(m.cursor);
    AdvanceKeepsTraced(m.slots, m.log, r, next);
    AdvanceIssues(m, r, nbJobs);
    IssueKeepsOrder(m, m', nbJobs, next);
  }

  lemma AdvanceIssues(m: Master, r: nat, nbJobs: nat)
    requires IsRank(m, r) && m.slots[r - 1].Busy? && m.cursor < nbJobs
    ensures Issued(Complete(m, r, nbJobs).value.log) == Issued(m.log) + [Job(m.cursor)]
  {
    var next := Job(m.cursor);
    assert Complete(m, r, nbJobs).value.log == m.log + [Msg(r, Go)] + [Msg(r, Work(next))];
    TraceSnoc(m.log, Msg(r, Go), r);
    TraceSnoc(m.log + [Msg(r, Go)], Msg(r, Work(next)), r);
  }

  lemma AdvanceKeepsAccounts(m: Master, r: nat, nbJobs: nat)
    requires Conserved(m) && StoppedLate(m, nbJobs)
    requires IsRank(m, r) && m.slots[r - 1].Busy? && m.cursor < nbJobs
    ensures var m' := Complete(m, r, nbJobs).value;
      Conserved(m') && StoppedLate(m', nbJobs)
  {
    var m' := Complete(m, r, nbJobs).value;
    var next := Job(m.cursor);
    AdvanceIssues(m, r, nbJobs);
    HoldsOne(next);
    StepConserves(m, m', r - 1, Busy(next), [next]);
    StepStoppedLate(m, m', r - 1, Busy(next), nbJobs);
  }

  lemma AdvanceKeepsTraced(slots: seq<Slot>, log: seq<Msg>, r: nat, next: Task)
    requires Addressed(slots, log) && Traced(slots, log)
    requires 1 <= r <= |slots| && slots[r - 1].Busy?
    ensures Addressed(slots[r - 1 := Busy(next)], log + [Msg(r, Go), Msg(r, Work(next))])
    ensures Traced(slots[r - 1 := Busy(next)], log + [Msg(r, Go), Msg(r, Work(next))])
  {
    assert Matches(slots[r - 1], Trace(log, r));
    OpenExtend(Trace(log, r), next);
    assert log + [Msg(r, Go), Msg(r, Work(next))] == log + Mail(r, [Go, Work(next)]);
    SendKeepsTraced(slots, log, r, Busy(next), [Go, Work(next)]);
  }

  lemma CompleteStops(m: Master, r: nat, nbJobs: nat)
    requires Inv(m, nbJobs) && IsRank(m, r) && m.slots[r - 1].Busy?
    requires m.cursor >= nbJobs
    ensures Inv(Complete(m, r, nbJobs).value, nbJobs)
  {
    StopKeepsMessages(m, r, nbJobs);
    StopKeepsAccounts(m, r, nbJobs);
  }

  lemma StopIssuesNothing(m: Master, r: nat, nbJobs: nat)
    requires IsRank(m, r) && m.slots[r - 1].Busy? && m.cursor >= nbJobs
    ensures Issued(Complete(m, r, nbJobs).value.log) == Issued(m.log)
  {
    TraceSnoc(m.log, Msg(r, Halt), r);
    assert Issued(m.log) + [] == Issued(m.log);
  }

  lemma StopKeepsMessages(m: Master, r: nat, nbJobs: nat)
    requires Addressed(m.slots, m.log) && Traced(m.slots, m.log) && HandedInOrder(m, nbJobs)
    requires IsRank(m, r) && m.slots[r - 1].Busy? && m.cursor >= nbJobs
    ensures var m' := Complete(m, r, nbJobs).value;
      Addressed(m'.slots, m'.log) && Traced(m'.slots, m'.log) && HandedInOrder(m', nbJobs)
  {
    StopKeepsTraced(m.slots, m.log, r);
    StopIssuesNothing(m, r, nbJobs);
  }

  lemma StopKeepsAccounts(m: Master, r: nat, nbJobs: nat)
    requires Conserved(m) && StoppedLate(m, nbJobs)
    requires IsRank(m, r) && m.slots[r - 1].Busy? && m.cursor >= nbJobs
    ensures var m' := Complete(m, r, nbJobs).value;
      Conserved(m') && StoppedLate(m', nbJobs)
  {
    var m' := Complete(m, r, nbJobs).value;
    StopIssuesNothing(m, r, nbJobs);
    assert Issued(m'.log) == Issued(m.log) + [];
    StepConserves(m, m', r - 1, Stopped, []);
    StepStoppedLate(m, m', r - 1, Stopped, nbJobs);
  }

  lemma StopKeepsTraced(slots: seq<Slot>, log: seq<Msg>, r: nat)
    requires Addressed(slots, log) && Traced(slots, log)
    requires 1 <= r <= |slots| && slots[r - 1].Busy?
    ensures Addressed(slots[r - 1 := Stopped], log + [Msg(r, Halt)])
    ensures Traced(slots[r - 1 := Stopped], log + [Msg(r, Halt)])
  {
    assert Matches(slots[r - 1], Trace(log, r));
    MatchesHalt(Trace(log, r), slots[r - 1].task);
    assert log + [Msg(r, Halt)] == log + Mail(r, [Halt]);
    SendKeepsTraced(slots, log, r, Stopped, [Halt]);
  }

  /** A dispatch that has stopped every worker has merged the result of
      every job exactly once (and nothing besides dummy jobs). */
  lemma AllStoppedMergedEachJobOnce(m: Master, nbJobs: nat)
    requires Inv(m, nbJobs) && m.cursor >= nbJobs
    requires forall i :: 0 <= i < |m.slots| ==> m.slots[i].Stopped?
    ensures multiset(Filter(IsJob, m.collected)) == multiset(JobList(nbJobs))
    ensures forall i: nat :: multiset(m.collected)[Job(i)] == if i < nbJobs then 1 else 0
  {
    AllStoppedMergedIssued(m);
    FilterPermutation(IsJob, m.collected, Issued(m.log));
    assert Min(m.cursor, nbJobs) == nbJobs;
    var jobs := Filter(IsJob, m.collected);
    assert multiset(jobs) == multiset(JobList(nbJobs));
    forall i: nat
      ensures multiset(m.collected)[Job(i)] == if i < nbJobs then 1 else 0
    {
      FilterKeepsCount(IsJob, m.collected, Job(i));
      assert multiset(m.collected)[Job(i)] == multiset(jobs)[Job(i)];
      JobListCount(nbJobs, i);
    }
  }

  lemma AllStoppedMergedIssued(m: Master)
    requires Conserved(m)
    requires forall i :: 0 <= i < |m.slots| ==> m.slots[i].Stopped?
    ensures multiset(m.collected) == multiset(Issued(m.log))
  {
    forall x
      ensures multiset(m.collected)[x] == multiset(Issued(m.log))[x]
    {
      HeldNone(m.slots, x);
    }
  }

  lemma {:induction false} JobListCount(k: nat, i: nat)
    ensures multiset(JobList(k))[Job(i)] == if i < k then 1 else 0
    decreases k
  {
    if k > 0 {
      var j: nat := k - 1;
      JobListCount(j, i);
      JobListCountStep(j, i);
    }
  }

  lemma JobListCountStep(j: nat, i: nat)
    requires multiset(JobList(j))[Job(i)] == if i < j then 1 else 0
    ensures multiset(JobList(j + 1))[Job(i)] == if i < j + 1 then 1 else 0
  {
    CountSnoc(JobList(j), Job(j), Job(i));
  }

  /** `order` lists the ranks 1..n, each once: how a loop over the
      workers visits them. */
  predicate IsOrder(order: seq<nat>, n: nat)
  {
    && NoDups(order)
    && (forall k :: 0 <= k < |order| ==> 1 <= order[k] <= n)
    && (forall r :: 1 <= r <= n ==> r in order)
  }

  /** After saturating the workers in `order`: the invariant holds,
      nothing is merged yet, the k-th worker reached holds the k-th task and
      the others are still idle. */
  ghost predicate Saturated(n: nat, order: seq<nat>, nbJobs: nat, dummies: bool, m: Master)
    requires forall k :: 0 <= k < |order| ==> 1 <= order[k] <= n
    requires |m.slots| == n
  {
    && m.collected == []
    && (forall k :: 0 <= k < |order| ==> Next(k, nbJobs, dummies).Ok? && m.slots[order[k] - 1] == Busy(Next(k, nbJobs, dummies).value))
    && (forall i :: 0 <= i < n && i + 1 !in order ==> m.slots[i].Idle?)
  }

  /** Saturation over a prefix of the workers fails exactly when it runs
      past the last job without a dummy to send. */
  lemma {:induction false} SaturatePrefix(n: nat, order: seq<nat>, nbJobs: nat, dummies: bool)
    requires NoDups(order) && forall k :: 0 <= k < |order| ==> 1 <= order[k] <= n
    ensures var r := Saturate(n, order, nbJobs, dummies);
      && (r.Err? <==> |order| > nbJobs && !dummies)
      && (r.Err? ==> r.error == JobIndexOutOfRange(nbJobs))
      && (r.Ok? ==> Inv(r.value, nbJobs) && Saturated(n, order, nbJobs, dummies, r.value))
    decreases |order|
  {
    SaturateFails(n, order, nbJobs, dummies);
    if |order| == 0 {
      InitialInv(n, nbJobs);
    } else {
      var init := order[..|order| - 1];
      var q := order[|order| - 1];
      assert order == init + [q];
      assert NoDups(init);
      SaturatePrefix(n, init, nbJobs, dummies);
      var r0 := Saturate(n, init, nbJobs, dummies);
      if r0.Ok? && Hand(r0.value, q, nbJobs, dummies).Ok? {
        var m0 := r0.value;
        assert q !in init;
        SaturateStep(n, init, q, nbJobs, dummies, m0);
        assert m0.slots[q - 1].Idle?;
        HandPreservesInv(m0, q, nbJobs, dummies);
      }
    }
  }

  /** Saturation fails on the first worker past the last job when there is
      no dummy to send. */
  lemma {:induction false} SaturateFails(n: nat, order: seq<nat>, nbJobs: nat, dummies: bool)
    requires forall k :: 0 <= k < |order| ==> 1 <= order[k] <= n
    ensures var r := Saturate(n, order, nbJobs, dummies);
      && (r.Err? <==> |order| > nbJobs && !dummies)
      && (r.Err? ==> r.error == JobIndexOutOfRange(nbJobs))
    decreases |order|
  {
    if |order| > 0 {
      SaturateFails(n, order[..|order| - 1], nbJobs, dummies);
    }
  }

  lemma SaturateStep(n: nat, init: seq<nat>, q: nat, nbJobs: nat, dummies: bool, m: Master)
    requires forall k :: 0 <= k < |init| ==> 1 <= init[k] <= n
    requires 1 <= q <= n && q !in init
    requires |m.slots| == n && m.cursor == |init|
    requires Saturated(n, init, nbJobs, dummies, m)
    requires Hand(m, q, nbJobs, dummies).Ok?
    ensures Saturated(n, init + [q], nbJobs, dummies, Hand(m, q, nbJobs, dummies).value)
  {
    var order := init + [q];
    var m' := Hand(m, q, nbJobs, dummies).value;
    forall k | 0 <= k < |order|
      ensures Next(k, nbJobs, dummies).Ok? && m'.slots[order[k] - 1] == Busy(Next(k, nbJobs, dummies).value)
    {
      if k < |init| {
        assert order[k] == init[k] && order[k] != q;
      }
    }
    forall i | 0 <= i < n && i + 1 !in order
      ensures m'.slots[i].Idle?
    {
      assert i + 1 !in init && i != q - 1;
    }
  }

  /** util/batch_peak2cxi.py and batch_hit_finder.py send `jobs[job_id]`
      to every worker: saturation fails exactly when there are more workers
      than jobs. With dummy jobs it always succeeds. When it succeeds every
      worker holds the task of its position in the saturation order, the
      cursor equals the number of workers, and the invariant holds. */
  lemma SaturateSpec(n: nat, order: seq<nat>, nbJobs: nat, dummies: bool)
    requires IsOrder(order, n)
    ensures var r := Saturate(n, order, nbJobs, dummies);
      && (r.Err? <==> n > nbJobs && !dummies)
      && (r.Err? ==> r.error == JobIndexOutOfRange(nbJobs))
      && (r.Ok? ==> Inv(r.value, nbJobs) && r.value.cursor == n && r.value.collected == [])
      && (r.Ok? ==> forall k :: 0 <= k < n ==> r.value.slots[order[k] - 1] == Busy(Next(k, nbJobs, dummies).value))
  {
    OrderLength(order, n);
    SaturatePrefix(n, order, nbJobs, dummies);
    var r := Saturate(n, order, nbJobs, dummies);
    if r.Ok? {
      assert Saturated(n, order, nbJobs, dummies, r.value);
    }
  }

  /** A duplicate-free listing of 1..n has n entries. */
  lemma OrderLength(order: seq<nat>, n: nat)
    requires IsOrder(order, n)
    ensures |order| == n
  {
    var ranks := Interval(1, n + 1);
    assert |ranks| == n;
    NoDupsCard(order);
    NoDupsCard(ranks);
    forall r | r in ranks
      ensures r in order
    {
      var k :| 0 <= k < |ranks| && ranks[k] == r;
    }
    forall r | r in order
      ensures r in ranks
    {
      var k :| 0 <= k < |order| && order[k] == r;
      assert ranks[r - 1] == r;
    }
    assert Elems(order) == Elems(ranks);
  }
}
