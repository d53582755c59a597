/**
 The gateway runner's concurrency gate (`createConcurrencyLimiter`,
 packages/gateway/src/runner.ts:30-65).

 The event loop runs each submission and each completion handler to its end, so the gate is a
 machine with two kinds of atomic steps. A completion frees the slot, settles the caller's promise
 (success and failure do the same to the gate) and starts the next queued task.
 */
module ConcurrencyGate {
  type Task = nat

  /** The captured variables `active` and `queue`, and the history of submissions, starts and completions. */
  datatype Gate = Gate(limit: nat, active: int, queue: seq<Task>,
                       submitted: seq<Task>, started: seq<Task>, finished: seq<Task>)

  function FloorLimit(max: real): (limit: nat)
    ensures limit >= 1
  {
    if max.Floor < 1 then 1 else max.Floor
  }

  function NewGate(max: real): Gate {
    Gate(FloorLimit(max), 0, [], [], [], [])
  }

  function Start(g: Gate, t: Task): Gate {
    g.(active := g.active + 1, started := g.started + [t])
  }

  function Submit(g: Gate, t: Task): Gate {
    var h := g.(submitted := g.submitted + [t]);
    if h.active < h.limit then Start(h, t) else h.(queue := h.queue + [t])
  }

  /** `next`: nothing while full, else the head of the queue starts. */
  function Next(g: Gate): Gate {
    if g.active >= g.limit || g.queue == [] then g
    else Start(g.(queue := g.queue[1..]), g.queue[0])
  }

  function Complete(g: Gate, t: Task): Gate {
    Next(g.(active := g.active - 1, finished := g.finished + [t]))
  }

  datatype Event = Submitted(t: Task) | Completed(t: Task)

  function Step(g: Gate, e: Event): Gate {
    match e
    case Submitted(t) => Submit(g, t)
    case Completed(t) => Complete(g, t)
  }

  /** A task completes only while it runs: it was started more often than it finished. */
  predicate Possible(g: Gate, e: Event) {
    e.Completed? ==> multiset(g.finished)[e.t] < multiset(g.started)[e.t]
  }

  predicate Run(g: Gate, events: seq<Event>)
    decreases |events|
  {
    events == [] || (Possible(g, events[0]) && Run(Step(g, events[0]), events[1..]))
  }

  function After(g: Gate, events: seq<Event>): Gate
    decreases |events|
  {
    if events == [] then g else After(Step(g, events[0]), events[1..])
  }

  function Outstanding(g: Gate): int { |g.submitted| - |g.finished| }

  /**
   Tasks start in submission order, each once: what was started, then the queue, is what was
   submitted. As many run as the limit and the outstanding work allow.
   */
  predicate Inv(g: Gate) {
    && g.limit >= 1
    && g.started + g.queue == g.submitted
    && multiset(g.finished) <= multiset(g.started)
    && g.active == |g.started| - |g.finished|
    && g.active == (if Outstanding(g) < g.limit then Outstanding(g) else g.limit)
  }

  lemma SizeOf(a: seq<Task>, b: seq<Task>)
    requires multiset(a) <= multiset(b)
    ensures |a| <= |b|
  {
    assert |multiset(b)| == |multiset(a)| + |multiset(b) - multiset(a)|;
  }

  lemma StepInv(g: Gate, e: Event)
    requires Inv(g) && Possible(g, e)
    ensures Inv(Step(g, e))
  {
    hide Inv, Submit, Complete;
    match e
    case Submitted(t) => SubmitInv(g, t);
    case Completed(t) => CompleteInv(g, t);
  }

  lemma SubmitInv(g: Gate, t: Task)
    requires Inv(g)
    ensures Inv(Submit(g, t))
  {
    SizeOf(g.finished, g.started);
    assert (g.started + g.queue) + [t] == g.started + (g.queue + [t]);
    if g.active < g.limit { assert g.queue == []; }
  }

  lemma CompleteInv(g: Gate, t: Task)
    requires Inv(g) && Possible(g, Completed(t))
    ensures Inv(Complete(g, t))
  {
    FinishOne(g.finished, g.started, t);
    var finished := g.finished + [t];
    if g.queue != [] {
      assert g.started + g.queue == (g.started + [g.queue[0]]) + g.queue[1..];
      assert multiset(finished) <= multiset(g.started + [g.queue[0]]) by {
        assert multiset(g.started + [g.queue[0]]) == multiset(g.started) + multiset{g.queue[0]};
      }
    }
  }

  lemma FinishOne(finished: seq<Task>, started: seq<Task>, t: Task)
    requires multiset(finished) <= multiset(started) && multiset(finished)[t] < multiset(started)[t]
    ensures multiset(finished + [t]) <= multiset(started) && |finished| + 1 <= |started|
  {
    assert multiset(finished + [t]) == multiset(finished) + multiset{t};
    SizeOf(finished + [t], started);
  }

  /** The invariant holds after every interleaving of submissions and completions. */
  lemma {:induction false} RunInv(g: Gate, events: seq<Event>)
    requires Inv(g) && Run(g, events)
    ensures Inv(After(g, events))
    decreases |events|
  {
    if events != [] {
      StepInv(g, events[0]);
      RunInv(Step(g, events[0]), events[1..]);
    }
  }

  /**
   From an empty gate, in every run: never more active tasks than the limit, which is one or the greatest whole
   number up to the maximum; starts follow the order
   of submission; every submitted task is queued, active or finished; a task waits only while all
   slots are taken; and once nothing is active, everything submitted has finished.
   */
  lemma GateGuarantees(max: real, events: seq<Event>)
    requires Run(NewGate(max), events)
    ensures var g := After(NewGate(max), events);
            && 0 <= g.active <= g.limit
            && (if max < 2.0 then g.limit == 1 else g.limit as real <= max < g.limit as real + 1.0)
            && g.started <= g.submitted
            && |g.submitted| == |g.queue| + g.active + |g.finished|
            && (g.queue != [] ==> g.active == g.limit)
            && (g.active == 0 ==> multiset(g.finished) == multiset(g.submitted))
  {
    RunInv(NewGate(max), events);
    LimitFixed(NewGate(max), events);
    var g := After(NewGate(max), events);
    SizeOf(g.finished, g.started);
    if g.active == 0 {
      assert g.started + [] == g.submitted;
      SameSize(g.finished, g.started);
    }
  }

  lemma SameSize(a: seq<Task>, b: seq<Task>)
    requires multiset(a) <= multiset(b) && |a| == |b|
    ensures multiset(a) == multiset(b)
  {
    assert multiset(b) == multiset(a) + (multiset(b) - multiset(a));
    assert |multiset(b) - multiset(a)| == 0;
  }

  lemma {:induction false} LimitFixed(g: Gate, events: seq<Event>)
    ensures After(g, events).limit == g.limit
    decreases |events|
  {
    if events != [] { LimitFixed(Step(g, events[0]), events[1..]); }
  }

  /** No task is stranded: while work is outstanding some task runs, so a completion is always possible. */
  lemma SomethingRuns(g: Gate) returns (t: Task)
    requires Inv(g) && Outstanding(g) > 0
    ensures Possible(g, Completed(t))
  {
    if forall x :: x in multiset(g.started) ==> multiset(g.started)[x] <= multiset(g.finished)[x] {
      assert multiset(g.started) <= multiset(g.finished);
      SizeOf(g.started, g.finished);
      assert false;
    }
    t :| t in multiset(g.started) && multiset(g.finished)[t] < multiset(g.started)[t];
  }

  lemma CompletionCounts(g: Gate, e: Event)
    requires e.Completed?
    ensures Outstanding(Step(g, e)) == Outstanding(g) - 1 && Step(g, e).submitted == g.submitted
  {
  }

  /** And any `Outstanding` completions, in whatever order, finish everything. */
  lemma {:induction false} CompletionsDrain(g: Gate, events: seq<Event>)
    requires Inv(g) && Run(g, events) && (forall i :: 0 <= i < |events| ==> events[i].Completed?)
    ensures |events| <= Outstanding(g)
    ensures Outstanding(After(g, events)) == Outstanding(g) - |events|
    ensures |events| == Outstanding(g) ==>
              var h := After(g, events);
              h.queue == [] && h.active == 0 && multiset(h.finished) == multiset(g.submitted)
    decreases |events|
  {
    SizeOf(g.finished, g.started);
    if events == [] {
      if Outstanding(g) == 0 {
        assert g.started + [] == g.submitted;
        SameSize(g.finished, g.started);
      }
    } else {
      hide Step, Possible;
      StepInv(g, events[0]);
      CompletionCounts(g, events[0]);
      var h := Step(g, events[0]);
      CompletionsDrain(h, events[1..]);
    }
  }

  // ---- The gate itself ----

  class ConcurrencyLimiter {
    const limit: nat
    var active: int
    var queue: seq<Task>
    ghost var submitted: seq<Task>
    ghost var started: seq<Task>
    ghost var finished: seq<Task>

    ghost function St(): Gate
      reads this
    {
      Gate(limit, active, queue, submitted, started, finished)
    }

    constructor (max: real)
      ensures St() == NewGate(max) && Inv(St())
    {
      limit := FloorLimit(max);
      active, queue := 0, [];
      submitted, started, finished := [], [], [];
    }

    /** Submitting returns at once; `startedNow` says whether the task runs or waits. */
    method Enter(t: Task) returns (startedNow: bool)
      requires Inv(St())
      modifies this
      ensures St() == Submit(old(St()), t) && Inv(St())
      ensures startedNow <==> old(active) < limit
    {
      StepInv(St(), Submitted(t));
      submitted := submitted + [t];
      startedNow := active < limit;
      if startedNow {
        Begin(t);
      } else {
        queue := queue + [t];
      }
    }

    method Begin(t: Task)
      modifies this`active, this`started
      ensures St() == Start(old(St()), t)
    {
      active := active + 1;
      started := started + [t];
    }

    /** The completion handler, the same for a fulfilled and a rejected task. */
    method Settle(t: Task)
      requires Inv(St()) && Possible(St(), Completed(t))
      modifies this
      ensures St() == Complete(old(St()), t) && Inv(St())
    {
      hide Inv, Possible;
      StepInv(St(), Completed(t));
      active := active - 1;
      finished := finished + [t];
      StartNext();
    }

    method StartNext()
      modifies this`active, this`queue, this`started
      ensures St() == Next(old(St()))
    {
      if active >= limit { return; }
      if |queue| > 0 {
        var run := queue[0];
        queue := queue[1..];
        Begin(run);
      }
    }
  }
}
