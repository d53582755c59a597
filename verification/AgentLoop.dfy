/** The control skeleton of one agent run (packages/core/src/index.ts:1102-1131, 1134-1209, 1532-1635, 1965-2408). */
module AgentLoop {
  import opened FailureStreaks

  lemma Distribute(a: int, b: int, cap: int)
    ensures (a + b) * cap == a * cap + b * cap
  {
  }

  /** The outcome of one provider attempt; a failure says whether it may be retried and whether it is a context overflow. */
  datatype Attempt = Answered(hasTools: bool) | Failed(retryable: bool, overflow: bool)

  /** What the output transform says of a response: drop it, pass it on, or fail. */
  datatype Verdict = Drop | Pass(hasTools: bool) | Throw

  /**
   Behaviour of the outside world, indexed by how often each part of it was consulted before: an oracle.
   Providers may answer or fail in any way, plugins may drop, rewrite or refuse any answer, tools may return
   any results or throw, the token budget may run out at any time and an abort may come at any check. The
   theorems hold for every world. Message text is dropped.
   */
  datatype World = World(
    attempt: nat -> Attempt,       // provider attempts
    abortBefore: nat -> bool,      // aborted when a provider is about to be tried
    abortWaiting: nat -> bool,     // aborted while waiting for a retry
    verdict: nat -> Verdict,       // output-transform verdicts
    compacts: bool,                // context recovery finds at least four messages and shortens them
    abortAt: nat -> bool,          // aborted at the start of an iteration
    overBudget: nat -> bool,       // token budget exceeded at an iteration
    tools: nat -> seq<ToolResult>, // results of an iteration's tool calls
    toolsThrow: nat -> bool)       // a destructive call, a hook or a checkpoint of an iteration fails instead

  datatype Config = Config(
    providers: nat,                // primary and fallbacks, cut at maxProviderAttempts
    retryDelays: nat,
    hasTransform: bool,
    maxRetries: nat,               // maxLLMOutputRetries
    maxIterations: nat,            // maxToolIterations
    streakLimit: int,              // toolFailureStreakLimit
    errorReflection: bool,
    maxReflections: nat,
    stopOnToolError: bool,
    synthesize: bool)              // synthesizeOnExhaustion

  /** How often the run consulted the world so far. */
  datatype Meter = Meter(generates: nat, attempts: nat, verdicts: nat)

  datatype Outcome = Response(hasTools: bool) | Error(overflow: bool) | Aborted

  // ---- generateWithFallbacks ----

  /** From provider `p` and its retry number `retry` on; `last` is the last error seen. */
  function Fallback(c: Config, w: World, k: nat, p: nat, retry: nat, last: Outcome): (Outcome, nat)
    requires retry <= c.retryDelays
    decreases c.providers - p, c.retryDelays - retry
  {
    if p >= c.providers then (last, k)
    else if retry == 0 && w.abortBefore(k) then (Aborted, k)
    else
      match w.attempt(k)
      case Answered(hasTools) => (Response(hasTools), k + 1)
      case Failed(retryable, overflow) =>
        if !(retry < c.retryDelays && retryable) then Fallback(c, w, k + 1, p + 1, 0, Error(overflow))
        else if w.abortWaiting(k) then (Aborted, k + 1)
        else Fallback(c, w, k + 1, p, retry + 1, Error(overflow))
  }

  /** At most one attempt per provider and retry slot; every attempt before an answer failed. */
  lemma {:induction false} FallbackBound(c: Config, w: World, k: nat, p: nat, retry: nat, last: Outcome)
    requires retry <= c.retryDelays && p <= c.providers && (p == c.providers ==> retry == 0) && last.Error?
    ensures var (o, n) := Fallback(c, w, k, p, retry, last);
            && k <= n <= k + (c.providers - p) * (c.retryDelays + 1) - retry
            && (forall j :: k <= j < n - 1 ==> w.attempt(j).Failed?)
            && (o.Response? ==> n > k && w.attempt(n - 1) == Answered(o.hasTools))
            && (o.Error? && n > k ==> w.attempt(n - 1).Failed? && w.attempt(n - 1).overflow == o.overflow)
            && (o.Error? && n == k ==> o == last)
    decreases c.providers - p, c.retryDelays - retry
  {
    var left, slots := c.providers - p, c.retryDelays + 1;
    OneProviderLess(left, slots);
    SlotsLeft(left, slots, retry);
    if p < c.providers && !(retry == 0 && w.abortBefore(k)) && w.attempt(k).Failed? {
      var error := Error(w.attempt(k).overflow);
      if !(retry < c.retryDelays && w.attempt(k).retryable) {
        FallbackBound(c, w, k + 1, p + 1, 0, error);
      } else if !w.abortWaiting(k) {
        FallbackBound(c, w, k + 1, p, retry + 1, error);
      }
    }
  }

  lemma SlotsLeft(left: nat, slots: nat, retry: nat)
    requires left > 0 ==> retry < slots
    requires left == 0 ==> retry == 0
    ensures left * slots - retry >= 0
    ensures left > 0 ==> left * slots - retry >= 1
  {
    OneProviderLess(left, slots);
  }

  lemma OneProviderLess(left: nat, slots: nat)
    ensures left > 0 ==> left * slots == (left - 1) * slots + slots
    ensures left * slots >= 0
  {
  }

  /** The bound is reached: when every attempt fails retryably and nothing aborts, all slots are used. */
  lemma {:induction false} FallbackBoundReached(c: Config, w: World, k: nat, p: nat, retry: nat, last: Outcome)
    requires retry <= c.retryDelays && p <= c.providers && (p == c.providers ==> retry == 0)
    requires forall j: nat :: w.attempt(j) == Failed(true, false) && !w.abortBefore(j) && !w.abortWaiting(j)
    ensures Fallback(c, w, k, p, retry, last).1 == k + (c.providers - p) * (c.retryDelays + 1) - retry
    decreases c.providers - p, c.retryDelays - retry
  {
    OneProviderLess(c.providers - p, c.retryDelays + 1);
    if p < c.providers {
      assert w.attempt(k) == Failed(true, false);
      if retry < c.retryDelays {
        FallbackBoundReached(c, w, k + 1, p, retry + 1, Error(false));
      } else {
        FallbackBoundReached(c, w, k + 1, p + 1, 0, Error(false));
      }
    }
  }

  function Generated(c: Config, w: World, m: Meter): (Outcome, Meter) {
    var (o, n) := Fallback(c, w, m.attempts, 0, 0, Error(false));
    (o, m.(generates := m.generates + 1, attempts := n))
  }

  /** The provider loop with its retry loop. */
  method GenerateWithFallbacks(c: Config, w: World, m0: Meter) returns (o: Outcome, m: Meter)
    ensures (o, m) == Generated(c, w, m0)
  {
    var last := Error(false);
    var k := m0.attempts;
    var p := 0;
    while p < c.providers
      invariant 0 <= p <= c.providers
      invariant Fallback(c, w, m0.attempts, 0, 0, Error(false)) == Fallback(c, w, k, p, 0, last)
    {
      if w.abortBefore(k) {
        return Aborted, m0.(generates := m0.generates + 1, attempts := k);
      }
      var retry := 0;
      var trying := true;
      while trying
        invariant 0 <= retry <= c.retryDelays && p < c.providers
        invariant trying ==> (retry == 0 ==> !w.abortBefore(k))
        invariant trying ==> Fallback(c, w, m0.attempts, 0, 0, Error(false)) == Fallback(c, w, k, p, retry, last)
        invariant !trying ==> Fallback(c, w, m0.attempts, 0, 0, Error(false)) == Fallback(c, w, k, p + 1, 0, last)
        decreases trying, c.retryDelays - retry
      {
        match w.attempt(k) {
          case Answered(hasTools) =>
            return Response(hasTools), m0.(generates := m0.generates + 1, attempts := k + 1);
          case Failed(retryable, overflow) =>
            last := Error(overflow);
            if !(retry < c.retryDelays && retryable) {
              trying := false;
            } else if w.abortWaiting(k) {
              return Aborted, m0.(generates := m0.generates + 1, attempts := k + 1);
            } else {
              retry := retry + 1;
            }
            k := k + 1;
        }
      }
      p := p + 1;
    }
    return last, m0.(generates := m0.generates + 1, attempts := k);
  }

  // ---- applyLLMOutputPipeline ----

  /** The refetch loop from a response and a retry number on. */
  function Pipeline(c: Config, w: World, m: Meter, current: bool, retry: nat): (Outcome, Meter)
    requires retry <= c.maxRetries
    decreases c.maxRetries - retry
  {
    if !c.hasTransform then (Response(current), m)
    else
      var seen := m.(verdicts := m.verdicts + 1);
      match w.verdict(m.verdicts)
      case Pass(hasTools) => (Response(hasTools), seen)
      case Throw => (Error(false), seen)
      case Drop =>
        if retry >= c.maxRetries then (Response(current), seen)
        else
          var (o, n) := Generated(c, w, seen);
          if o.Response? then Pipeline(c, w, n, o.hasTools, retry + 1) else (o, n)
  }

  method ApplyOutputPipeline(c: Config, w: World, m0: Meter, initial: bool) returns (o: Outcome, m: Meter)
    ensures (o, m) == Pipeline(c, w, m0, initial, 0)
  {
    var current := initial;
    m := m0;
    var retry := 0;
    while c.hasTransform
      invariant 0 <= retry <= c.maxRetries
      invariant Pipeline(c, w, m0, initial, 0) == Pipeline(c, w, m, current, retry)
      decreases c.maxRetries - retry
    {
      var verdict := w.verdict(m.verdicts);
      m := m.(verdicts := m.verdicts + 1);
      if verdict.Pass? { return Response(verdict.hasTools), m; }
      if verdict.Throw? { return Error(false), m; }
      if retry >= c.maxRetries { break; }
      retry := retry + 1;
      o, m := GenerateWithFallbacks(c, w, m);
      if !o.Response? { return; }
      current := o.hasTools;
    }
    return Response(current), m;
  }

  /** Meter `b` is at most `n` generate calls after `a`, each within the attempt bound. */
  predicate Within(c: Config, a: Meter, b: Meter, n: nat) {
    && a.generates <= b.generates <= a.generates + n
    && a.attempts <= b.attempts <= a.attempts + (b.generates - a.generates) * AttemptCap(c)
  }

  function AttemptCap(c: Config): nat { c.providers * (c.retryDelays + 1) }

  lemma GeneratedWithin(c: Config, w: World, m: Meter)
    ensures Within(c, m, Generated(c, w, m).1, 1)
  {
    FallbackBound(c, w, m.attempts, 0, 0, Error(false));
  }

  lemma WithinTrans(c: Config, x: Meter, y: Meter, z: Meter, n: nat, k: nat)
    requires Within(c, x, y, n) && Within(c, y, z, k)
    ensures Within(c, x, z, n + k)
  {
    var a, b := y.generates - x.generates, z.generates - y.generates;
    Distribute(a, b, AttemptCap(c));
  }

  lemma {:induction false} PipelineWithin(c: Config, w: World, m: Meter, current: bool, retry: nat)
    requires retry <= c.maxRetries
    ensures Within(c, m, Pipeline(c, w, m, current, retry).1, c.maxRetries - retry)
    ensures !Pipeline(c, w, m, current, retry).0.Response? ==> c.hasTransform
    decreases c.maxRetries - retry
  {
    if c.hasTransform && w.verdict(m.verdicts).Drop? && retry < c.maxRetries {
      var seen := m.(verdicts := m.verdicts + 1);
      var (o, n) := Generated(c, w, seen);
      GeneratedWithin(c, w, seen);
      if o.Response? {
        PipelineWithin(c, w, n, o.hasTools, retry + 1);
        WithinTrans(c, seen, n, Pipeline(c, w, n, o.hasTools, retry + 1).1, 1, c.maxRetries - (retry + 1));
      }
    }
  }

  /** One fetch of the loop: a generate call and the pipeline behind it. */
  function Fetched(c: Config, w: World, m: Meter): (Outcome, Meter) {
    var (o, n) := Generated(c, w, m);
    if o.Response? then Pipeline(c, w, n, o.hasTools, 0) else (o, n)
  }

  /** The first fetch recovers once from a context overflow, if the messages can be compacted. */
  function FirstFetched(c: Config, w: World): (Outcome, Meter) {
    var (first, m) := Generated(c, w, Meter(0, 0, 0));
    var (o, n) :=
      if first.Error? && first.overflow && w.compacts then
        var (again, k) := Generated(c, w, m);
        (if again.Response? then again else first, k)
      else (first, m);
    if o.Response? then Pipeline(c, w, n, o.hasTools, 0) else (o, n)
  }

  method Fetch(c: Config, w: World, m0: Meter) returns (o: Outcome, m: Meter)
    ensures (o, m) == Fetched(c, w, m0)
  {
    o, m := GenerateWithFallbacks(c, w, m0);
    if o.Response? {
      o, m := ApplyOutputPipeline(c, w, m, o.hasTools);
    }
  }

  method FirstFetch(c: Config, w: World) returns (o: Outcome, m: Meter)
    ensures (o, m) == FirstFetched(c, w)
  {
    hide Generated, Pipeline;
    o, m := GenerateWithFallbacks(c, w, Meter(0, 0, 0));
    if o.Error? && o.overflow && w.compacts {
      var again;
      again, m := GenerateWithFallbacks(c, w, m);
      if again.Response? { o := again; }
    }
    if o.Response? {
      o, m := ApplyOutputPipeline(c, w, m, o.hasTools);
    }
  }

  lemma FetchedWithin(c: Config, w: World, m: Meter)
    ensures Within(c, m, Fetched(c, w, m).1, 1 + c.maxRetries)
  {
    hide Within, Pipeline, Generated;
    var (o, n) := Generated(c, w, m);
    GeneratedWithin(c, w, m);
    if o.Response? {
      PipelineWithin(c, w, n, o.hasTools, 0);
      WithinTrans(c, m, n, Fetched(c, w, m).1, 1, c.maxRetries);
    } else {
      WithinMore(c, m, n, 1, 1 + c.maxRetries);
    }
  }

  lemma WithinMore(c: Config, a: Meter, b: Meter, n: nat, more: nat)
    requires Within(c, a, b, n) && n <= more
    ensures Within(c, a, b, more)
  {
  }

  lemma FirstFetchedWithin(c: Config, w: World)
    ensures Within(c, Meter(0, 0, 0), FirstFetched(c, w).1, 2 + c.maxRetries)
  {
    hide Within, Pipeline, Generated;
    var zero := Meter(0, 0, 0);
    var (first, m) := Generated(c, w, zero);
    GeneratedWithin(c, w, zero);
    var (o, n) := (first, m);
    WithinMore(c, zero, m, 1, 2);
    if first.Error? && first.overflow && w.compacts {
      var (again, k) := Generated(c, w, m);
      GeneratedWithin(c, w, m);
      WithinTrans(c, zero, m, k, 1, 1);
      o, n := if again.Response? then again else first, k;
    }
    if o.Response? {
      PipelineWithin(c, w, n, o.hasTools, 0);
      WithinTrans(c, zero, n, FirstFetched(c, w).1, 2, c.maxRetries);
    } else {
      WithinMore(c, zero, n, 2, 2 + c.maxRetries);
    }
  }

  // ---- AgentLoop.run ----

  /** Where the loop stands: the tool results of each iteration so far and what was consulted for them. */
  datatype Progress = Progress(h: History, m: Meter, hasTools: bool, reflections: nat, fetches: nat)

  /** Why the loop stopped. */
  datatype Why = Thrown | OverBudget | NoTools | Streak | ToolError | CapReached

  datatype Stop = Stop(why: Why, p: Progress)

  predicate NoErrors(results: seq<ToolResult>) {
    forall r :: r in results ==> r.ok
  }

  predicate Reflects(c: Config, results: seq<ToolResult>, reflections: nat) {
    !NoErrors(results) && c.errorReflection && reflections < c.maxReflections
  }

  predicate StopsOnErrors(c: Config, results: seq<ToolResult>, reflections: nat) {
    !NoErrors(results) && !Reflects(c, results, reflections) && c.stopOnToolError
  }

  /** The iterations from `p` on, up to the one that stops the loop. */
  function Rounds(c: Config, w: World, p: Progress): Stop
    requires |p.h| <= c.maxIterations
    decreases c.maxIterations - |p.h|
  {
    var i := |p.h|;
    if i == c.maxIterations then Stop(CapReached, p)
    else if w.abortAt(i) then Stop(Thrown, p)
    else if w.overBudget(i) then Stop(OverBudget, p)
    else if !p.hasTools then Stop(NoTools, p)
    else if w.toolsThrow(i) then Stop(Thrown, p)
    else
      var results := w.tools(i);
      var q := p.(h := p.h + [results]);
      if Terminal(q.h, c.streakLimit) then Stop(Streak, q)
      else if StopsOnErrors(c, results, p.reflections) then Stop(ToolError, q)
      else
        var reflections := p.reflections + (if Reflects(c, results, p.reflections) then 1 else 0);
        var (o, m) := Fetched(c, w, p.m);
        if o.Response? then Rounds(c, w, Progress(q.h, m, o.hasTools, reflections, p.fetches + 1))
        else Stop(Thrown, q.(m := m, reflections := reflections, fetches := p.fetches + 1))
  }

  datatype Reason = Natural | ToolErrorTerminal | BudgetExhaustedWithSynthesis

  datatype Ending = Threw | Finished(reason: Reason)

  /** A run: its ending, the tool results of its iterations, what it consulted, and its fetches in the loop. */
  datatype Result = Result(ending: Ending, h: History, m: Meter, fetches: nat)

  /** Iterations completed; stopping on a tool error does not complete its iteration. */
  function Completed(s: Stop): int { |s.p.h| - (if s.why == ToolError then 1 else 0) }

  predicate Exhausted(c: Config, s: Stop) {
    s.why == OverBudget || (s.p.hasTools && Completed(s) >= c.maxIterations)
  }

  /** After the loop: a synthesis when the budget is exhausted, whatever stopped the loop. */
  function Ended(c: Config, w: World, s: Stop): Result {
    var reason := if s.why == Streak then ToolErrorTerminal else Natural;
    if s.why == Thrown then Result(Threw, s.p.h, s.p.m, s.p.fetches)
    else if Exhausted(c, s) && c.synthesize then
      var (o, m) := Fetched(c, w, s.p.m);
      Result(if o.Response? then Finished(BudgetExhaustedWithSynthesis) else Threw, s.p.h, m, s.p.fetches)
    else Result(Finished(reason), s.p.h, s.p.m, s.p.fetches)
  }

  function Ran(c: Config, w: World): Result {
    var (o, m) := FirstFetched(c, w);
    if o.Response? then Ended(c, w, Rounds(c, w, Progress([], m, o.hasTools, 0, 0))) else Result(Threw, [], m, 0)
  }

  /** The run loop with its counters: exactly the run that `Ran` describes. */
  method Run(c: Config, w: World) returns (r: Result)
    ensures r == Ran(c, w)
  {
    hide Terminal, Streaks, Updated, Reached, NoErrors, Fetched, FirstFetched;
    var o, m := FirstFetch(c, w);
    if !o.Response? { return Result(Threw, [], m, 0); }
    var hasTools, tokenBudgetExceeded, reason := o.hasTools, false, Natural;
    var h: History, fetches: nat, completed, reflections := [], 0, 0, 0;
    var streak: Counters := map[];
    ghost var start := Progress([], m, hasTools, 0, 0);
    ghost var end := Rounds(c, w, start);
    ghost var why := CapReached;
    NothingYet(c.streakLimit);
    var iteration := 0;
    while iteration < c.maxIterations
      invariant iteration == |h| == completed <= c.maxIterations
      invariant end == Rounds(c, w, Progress(h, m, hasTools, reflections, fetches))
      invariant streak == Streaks(h) && reason == Natural && !tokenBudgetExceeded && why == CapReached
      decreases c.maxIterations - iteration
    {
      if w.abortAt(iteration) { return Result(Threw, h, m, fetches); }
      if w.overBudget(iteration) {
        tokenBudgetExceeded := true;
        why := OverBudget;
        break;
      }
      if !hasTools {
        why := NoTools;
        break;
      }
      if w.toolsThrow(iteration) { return Result(Threw, h, m, fetches); }
      var results := w.tools(iteration);
      var terminal, stop;
      HistoryGrows(h, results, c.streakLimit);
      streak, terminal := UpdateStreaks(streak, results, c.streakLimit);
      h := h + [results];
      if terminal {
        reason := ToolErrorTerminal;
        completed := iteration + 1;
        why := Streak;
        break;
      }
      stop, reflections := ReactToErrors(c, results, reflections);
      if stop {
        why := ToolError;
        break;
      }
      o, m := Fetch(c, w, m);
      fetches := fetches + 1;
      if !o.Response? { return Result(Threw, h, m, fetches); }
      hasTools := o.hasTools;
      completed := iteration + 1;
      iteration := iteration + 1;
    }
    assert end == Stop(why, Progress(h, m, hasTools, reflections, fetches));
    var iterationCapHit := !tokenBudgetExceeded && hasTools && completed >= c.maxIterations;
    if (iterationCapHit || tokenBudgetExceeded) && c.synthesize {
      o, m := Fetch(c, w, m);
      if !o.Response? { return Result(Threw, h, m, fetches); }
      reason := BudgetExhaustedWithSynthesis;
    }
    return Result(Finished(reason), h, m, fetches);
  }

  /** After a failing iteration: reflect while reflections are left, else stop if so configured. */
  method ReactToErrors(c: Config, results: seq<ToolResult>, reflections0: nat) returns (stop: bool, reflections: nat)
    ensures stop == StopsOnErrors(c, results, reflections0)
    ensures reflections == reflections0 + (if Reflects(c, results, reflections0) then 1 else 0)
  {
    stop, reflections := false, reflections0;
    if !NoErrors(results) {
      if c.errorReflection && reflections < c.maxReflections {
        reflections := reflections + 1;
      } else if c.stopOnToolError {
        stop := true;
      }
    }
  }

  // ---- What holds of every run ----

  /** No iteration before the last one of the history brought a streak to the limit. */
  predicate QuietBefore(h: History, limit: int) {
    forall i :: 0 < i < |h| ==> !Terminal(h[..i], limit)
  }

  /** Upper bound on generate calls when the loop has run `i` fetches. */
  function CallCap(c: Config, i: nat): nat { 1 + (i + 1) * (1 + c.maxRetries) }

  lemma CallCapStep(c: Config, i: nat)
    ensures CallCap(c, i) + (1 + c.maxRetries) == CallCap(c, i + 1)
    ensures CallCap(c, 0) == 2 + c.maxRetries
  {
    Distribute(i + 1, 1, 1 + c.maxRetries);
  }

  lemma CallCapMonotone(c: Config, i: nat, j: nat)
    requires i <= j
    ensures CallCap(c, i) <= CallCap(c, j)
    decreases j - i
  {
    if i < j {
      CallCapStep(c, i);
      CallCapMonotone(c, i + 1, j);
    }
  }

  /** Every iteration of the history was let in by the world and has the world's results. */
  predicate Admitted(w: World, h: History) {
    forall i :: 0 <= i < |h| ==> h[i] == w.tools(i) && !w.overBudget(i) && !w.abortAt(i) && !w.toolsThrow(i)
  }

  predicate Going(c: Config, w: World, p: Progress) {
    && |p.h| == p.fetches <= c.maxIterations && p.reflections <= c.maxReflections
    && Within(c, Meter(0, 0, 0), p.m, CallCap(c, p.fetches))
    && Admitted(w, p.h) && QuietBefore(p.h, c.streakLimit) && !Terminal(p.h, c.streakLimit)
  }

  /** How the loop can stop. */
  predicate StopFits(c: Config, w: World, s: Stop) {
    && s.p.fetches <= |s.p.h| <= c.maxIterations && s.p.reflections <= c.maxReflections
    && Within(c, Meter(0, 0, 0), s.p.m, CallCap(c, s.p.fetches))
    && Admitted(w, s.p.h) && QuietBefore(s.p.h, c.streakLimit)
    && (s.why == Streak <==> Terminal(s.p.h, c.streakLimit))
    && (s.why == Streak || s.why == ToolError ==> s.p.hasTools && s.p.fetches == |s.p.h| - 1)
    && (s.why == OverBudget ==> w.overBudget(|s.p.h|))
    && (s.why == NoTools ==> !s.p.hasTools)
    && (s.why == CapReached ==> |s.p.h| == c.maxIterations)
  }

  lemma GoingOn(c: Config, w: World, p: Progress, m: Meter)
    requires Going(c, w, p) && |p.h| < c.maxIterations
    requires !w.abortAt(|p.h|) && !w.overBudget(|p.h|) && !w.toolsThrow(|p.h|)
    requires Within(c, p.m, m, 1 + c.maxRetries)
    ensures var h := p.h + [w.tools(|p.h|)];
            && Admitted(w, h) && QuietBefore(h, c.streakLimit)
            && Within(c, Meter(0, 0, 0), m, CallCap(c, p.fetches + 1))
  {
    hide Within, CallCap, Terminal, Reached, Streaks;
    HistoryGrows(p.h, w.tools(|p.h|), c.streakLimit);
    WithinTrans(c, Meter(0, 0, 0), p.m, m, CallCap(c, p.fetches), 1 + c.maxRetries);
    CallCapStep(c, p.fetches);
  }

  lemma {:induction false} RoundsFit(c: Config, w: World, p: Progress)
    requires Going(c, w, p)
    ensures StopFits(c, w, Rounds(c, w, p))
    decreases c.maxIterations - |p.h|
  {
    hide Within, CallCap, Terminal, Reached, Streaks, Fetched, NoErrors, QuietBefore, Admitted;
    var i := |p.h|;
    if i < c.maxIterations && !w.abortAt(i) && !w.overBudget(i) && p.hasTools && !w.toolsThrow(i) {
      var results := w.tools(i);
      var h := p.h + [results];
      var reflections := p.reflections + (if Reflects(c, results, p.reflections) then 1 else 0);
      var (o, m) := Fetched(c, w, p.m);
      FetchedWithin(c, w, p.m);
      GoingOn(c, w, p, m);
      if o.Response? && !Terminal(h, c.streakLimit) && !StopsOnErrors(c, results, p.reflections) {
        RoundsFit(c, w, Progress(h, m, o.hasTools, reflections, p.fetches + 1));
      }
    }
  }

  lemma FirstGoing(c: Config, w: World)
    ensures var (o, m) := FirstFetched(c, w);
            && Within(c, Meter(0, 0, 0), m, CallCap(c, 0))
            && (o.Response? ==> Going(c, w, Progress([], m, o.hasTools, 0, 0)))
  {
    hide Within, CallCap, Terminal, Streaks, FirstFetched;
    FirstFetchedWithin(c, w);
    CallCapStep(c, 0);
    NothingYet(c.streakLimit);
  }

  /**
   For every world a run makes at most 1 + (N + 2)(1 + R) generate calls and P(D + 1) provider attempts
   in each, runs at most N iterations, and fetches in the loop at most once for each of them.
   */
  lemma CallBound(c: Config, w: World)
    ensures var r := Ran(c, w);
            && r.m.generates <= 1 + (c.maxIterations + 2) * (1 + c.maxRetries)
            && r.m.attempts <= r.m.generates * AttemptCap(c)
            && r.fetches <= |r.h| <= c.maxIterations
  {
    hide Within, CallCap, Terminal, Streaks, FirstFetched, Fetched, AttemptCap, Rounds, Admitted, QuietBefore;
    var (o, m) := FirstFetched(c, w);
    FirstGoing(c, w);
    if o.Response? {
      var p := Progress([], m, o.hasTools, 0, 0);
      RoundsFit(c, w, p);
      var s := Rounds(c, w, p);
      FetchedWithin(c, w, s.p.m);
      FetchCap(c, s.p.m, Fetched(c, w, s.p.m).1, s.p.fetches);
      CapHolds(c, s.p.m, s.p.fetches);
      CapHolds(c, Fetched(c, w, s.p.m).1, s.p.fetches + 1);
    } else {
      CapHolds(c, m, 0);
    }
  }

  // ---- A world that reaches every bound ----

  /**
   All slots of the first call fail with an overflow that compaction recovers from; every later call answers
   in its last slot, asks for tools and is dropped, and no iteration ends the loop.
   */
  function BusyWorld(c: Config): World {
    World((k: nat) => BusyAttempt(AttemptCap(c), k), _ => false, _ => false, _ => Drop, true,
          _ => false, _ => false, _ => [], _ => false)
  }

  function BusyAttempt(cap: nat, k: nat): Attempt {
    if k >= cap >= 1 && (k + 1) % cap == 0 then Answered(true) else Failed(true, k < cap)
  }

  /** The meter after `g` calls that used all their slots. */
  predicate Full(c: Config, m: Meter, g: nat) {
    m.generates == g && m.attempts == g * AttemptCap(c)
  }

  lemma SlotOf(cap: nat, g: nat, r: nat)
    requires r < cap
    ensures (g * cap + r) % cap == r
  {
    ModuloOf(g * cap + r, cap, g, r);
  }

  lemma ModuloOf(x: nat, cap: nat, g: int, r: nat)
    requires x == g * cap + r && r < cap
    ensures x % cap == r
  {
    var q := x / cap;
    assert x == q * cap + x % cap;
    Distribute(q, -g, cap);
    assert (q - g) * cap == r - x % cap;
    if q > g { MulAtLeast(q - g, cap); } else if q < g { MulAtLeast(g - q, cap); Distribute(q - g, g - q, cap); }
  }

  lemma MulAtLeast(n: int, cap: nat)
    requires n >= 1
    ensures n * cap >= cap
  {
  }

  /** From a free slot on, all attempts fail up to the last one, which answers or fails as well. */
  lemma {:induction false} LastSlotDecides(c: Config, w: World, k: nat, p: nat, retry: nat, last: Outcome,
                                           overflow: bool, end: nat)
    requires retry <= c.retryDelays && p <= c.providers && (p == c.providers ==> retry == 0)
    requires end == k + (c.providers - p) * (c.retryDelays + 1) - retry
    requires forall j: nat :: !w.abortBefore(j) && !w.abortWaiting(j)
    requires forall j: nat :: k <= j && j + 1 < end ==> w.attempt(j) == Failed(true, overflow)
    requires end > k ==> w.attempt(end - 1) == Answered(true) || w.attempt(end - 1) == Failed(true, overflow)
    ensures Fallback(c, w, k, p, retry, last) ==
            (if end <= k then last else if w.attempt(end - 1).Answered? then Response(true) else Error(overflow), end)
    decreases c.providers - p, c.retryDelays - retry
  {
    var left, slots := c.providers - p, c.retryDelays + 1;
    OneProviderLess(left, slots);
    SlotsLeft(left, slots, retry);
    if p < c.providers {
      SlotsLeft(left - 1, slots, 0);
      if retry < c.retryDelays {
        if w.attempt(k).Failed? { LastSlotDecides(c, w, k + 1, p, retry + 1, Error(overflow), overflow, end); }
      } else if w.attempt(k).Failed? {
        LastSlotDecides(c, w, k + 1, p + 1, 0, Error(overflow), overflow, end);
      }
    }
  }

  /** Call number `g` of the busy world uses all its slots; only the first one fails. */
  lemma BusyCall(c: Config, m: Meter, g: nat)
    requires c.providers >= 1 && Full(c, m, g)
    ensures var (o, n) := Generated(c, BusyWorld(c), m);
            Full(c, n, g + 1) && n.verdicts == m.verdicts && o == if g == 0 then Error(true) else Response(true)
  {
    var cap, k, w := AttemptCap(c), m.attempts, BusyWorld(c);
    OneProviderLess(c.providers, c.retryDelays + 1);
    OneProviderLess(g + 1, cap);
    assert cap >= 1;
    forall j | k <= j < k + cap
      ensures w.attempt(j) == if j == k + cap - 1 && g > 0 then Answered(true) else Failed(true, g == 0)
    {
      BusySlot(cap, g, j - k);
    }
    LastSlotDecides(c, w, k, 0, 0, Error(false), g == 0, k + cap);
  }

  lemma BusySlot(cap: nat, g: nat, r: nat)
    requires r < cap
    ensures BusyAttempt(cap, g * cap + r) == if r == cap - 1 && g > 0 then Answered(true) else Failed(true, g == 0)
  {
    var j := g * cap + r;
    if r < cap - 1 {
      SlotOf(cap, g, r + 1);
    } else {
      OneProviderLess(g + 1, cap);
      ModuloOf(j + 1, cap, g + 1, 0);
    }
    if g > 0 { MulAtLeast(g, cap); }
  }

  lemma {:induction false} BusyPipeline(c: Config, m: Meter, g: nat, retry: nat)
    requires c.providers >= 1 && c.hasTransform && retry <= c.maxRetries && g >= 1 && Full(c, m, g)
    ensures var (o, n) := Pipeline(c, BusyWorld(c), m, true, retry);
            o == Response(true) && Full(c, n, g + (c.maxRetries - retry))
    decreases c.maxRetries - retry
  {
    hide Generated, AttemptCap;
    if retry < c.maxRetries {
      var seen := m.(verdicts := m.verdicts + 1);
      BusyCall(c, seen, g);
      var (o, n) := Generated(c, BusyWorld(c), seen);
      BusyPipeline(c, n, g + 1, retry + 1);
    }
  }

  lemma BusyFetch(c: Config, m: Meter, g: nat)
    requires c.providers >= 1 && c.hasTransform && g >= 1 && Full(c, m, g)
    ensures var (o, n) := Fetched(c, BusyWorld(c), m);
            o == Response(true) && Full(c, n, g + (1 + c.maxRetries))
  {
    hide Generated, Pipeline, AttemptCap;
    BusyCall(c, m, g);
    BusyPipeline(c, Generated(c, BusyWorld(c), m).1, g + 1, 0);
  }

  lemma BusyFirstFetch(c: Config)
    requires c.providers >= 1 && c.hasTransform
    ensures var (o, n) := FirstFetched(c, BusyWorld(c));
            o == Response(true) && Full(c, n, CallCap(c, 0))
  {
    var zero := Meter(0, 0, 0);
    CallCapStep(c, 0);
    assert Full(c, zero, 0);
    hide Generated, Pipeline, AttemptCap, Full, CallCap;
    BusyCall(c, zero, 0);
    var m := Generated(c, BusyWorld(c), zero).1;
    BusyCall(c, m, 1);
    BusyPipeline(c, Generated(c, BusyWorld(c), m).1, 2, 0);
  }

  lemma {:induction false} BusyRounds(c: Config, p: Progress)
    requires c.providers >= 1 && c.hasTransform && p.hasTools && |p.h| == p.fetches <= c.maxIterations
    requires Full(c, p.m, CallCap(c, p.fetches))
    ensures var s := Rounds(c, BusyWorld(c), p);
            && s.why == CapReached && s.p.hasTools && |s.p.h| == s.p.fetches == c.maxIterations
            && Full(c, s.p.m, CallCap(c, c.maxIterations))
    decreases c.maxIterations - |p.h|
  {
    hide Fetched, Terminal, Full, CallCap;
    if |p.h| < c.maxIterations {
      var h := p.h + [[]];
      NothingFails(p.h, c.streakLimit);
      CallCapStep(c, p.fetches);
      CallCapPositive(c, p.fetches);
      BusyFetch(c, p.m, CallCap(c, p.fetches));
      BusyRounds(c, Progress(h, Fetched(c, BusyWorld(c), p.m).1, true, p.reflections, p.fetches + 1));
    }
  }

  lemma CallCapPositive(c: Config, i: nat)
    ensures CallCap(c, i) >= 1
  {
    MulAtLeast(i + 1, 1 + c.maxRetries);
  }

  lemma NothingFails(h: History, limit: int)
    ensures !Terminal(h + [[]], limit) && NoErrors([])
  {
    HistoryGrows(h, [], limit);
  }

  /** All three bounds are reached at once: every call, every attempt in each of them, every iteration. */
  lemma CallBoundReached(c: Config)
    requires c.providers >= 1 && c.hasTransform && c.synthesize
    ensures var r := Ran(c, BusyWorld(c));
            && r.m.generates == 1 + (c.maxIterations + 2) * (1 + c.maxRetries)
            && r.m.attempts == r.m.generates * AttemptCap(c)
            && r.fetches == |r.h| == c.maxIterations
            && r.ending == Finished(BudgetExhaustedWithSynthesis)
  {
    hide FirstFetched, Fetched, Rounds, AttemptCap;
    BusyFirstFetch(c);
    var m := FirstFetched(c, BusyWorld(c)).1;
    var start := Progress([], m, true, 0, 0);
    BusyRounds(c, start);
    var s := Rounds(c, BusyWorld(c), start);
    CallCapStep(c, c.maxIterations);
    CallCapPositive(c, c.maxIterations);
    BusyFetch(c, s.p.m, CallCap(c, c.maxIterations));
  }

  /** A streak ended the loop in its last permitted iteration. */
  predicate StreakAtCap(c: Config, h: History) {
    Terminal(h, c.streakLimit) && |h| >= c.maxIterations
  }

  /**
   The first iteration in which a failure streak reaches the limit is the last, and no provider is
   called in the loop after it. The run then reports the streak, except that a synthesis overwrites
   the report exactly when that iteration also used up the iteration budget.
   */
  lemma StreakEndsRun(c: Config, w: World)
    ensures var r := Ran(c, w);
            && QuietBefore(r.h, c.streakLimit)
            && (Terminal(r.h, c.streakLimit) ==> r.fetches == |r.h| - 1)
            && (r.ending.Finished? ==>
                  (r.ending.reason == ToolErrorTerminal <==>
                   Terminal(r.h, c.streakLimit) && !(StreakAtCap(c, r.h) && c.synthesize)))
            && (r.ending.Finished? && Terminal(r.h, c.streakLimit) && StreakAtCap(c, r.h) && c.synthesize ==>
                  r.ending.reason == BudgetExhaustedWithSynthesis)
  {
    hide Within, CallCap, Terminal, Streaks, FirstFetched, Fetched, Rounds, Admitted, QuietBefore;
    var (o, m) := FirstFetched(c, w);
    NothingYet(c.streakLimit);
    FirstGoing(c, w);
    if o.Response? {
      RoundsFit(c, w, Progress([], m, o.hasTools, 0, 0));
    }
  }

  /** The iterations of a run are the world's, none of them over budget, and a synthesis means exhaustion. */
  lemma RunAdmitted(c: Config, w: World)
    ensures var r := Ran(c, w);
            && Admitted(w, r.h)
            && (r.ending == Finished(BudgetExhaustedWithSynthesis) ==>
                  c.synthesize && (|r.h| == c.maxIterations || w.overBudget(|r.h|)))
  {
    hide Within, CallCap, Terminal, Streaks, FirstFetched, Fetched, Rounds, QuietBefore;
    var (o, m) := FirstFetched(c, w);
    FirstGoing(c, w);
    if o.Response? {
      RoundsFit(c, w, Progress([], m, o.hasTools, 0, 0));
    }
  }

  lemma FetchCap(c: Config, before: Meter, m: Meter, fetches: nat)
    requires Within(c, Meter(0, 0, 0), before, CallCap(c, fetches)) && Within(c, before, m, 1 + c.maxRetries)
    ensures Within(c, Meter(0, 0, 0), m, CallCap(c, fetches + 1))
  {
    WithinTrans(c, Meter(0, 0, 0), before, m, CallCap(c, fetches), 1 + c.maxRetries);
    CallCapStep(c, fetches);
  }

  /** The cap on calls holds as long as there were no more fetches than iterations and one synthesis. */
  lemma CapHolds(c: Config, m: Meter, fetches: nat)
    requires Within(c, Meter(0, 0, 0), m, CallCap(c, fetches)) && fetches <= c.maxIterations + 1
    ensures m.generates <= 1 + (c.maxIterations + 2) * (1 + c.maxRetries)
    ensures m.attempts <= m.generates * AttemptCap(c)
  {
    CallCapMonotone(c, fetches, c.maxIterations + 1);
  }

  lemma NothingYet(limit: int)
    ensures !Terminal([], limit) && Streaks([]) == map[] && QuietBefore([], limit)
  {
  }

  /** Appending an iteration extends the counters by one update and leaves all earlier prefixes as they were. */
  lemma HistoryGrows(h: History, results: seq<ToolResult>, limit: int)
    ensures Streaks(h + [results]) == Updated(Streaks(h), results)
    ensures Terminal(h + [results], limit) <==> Reached(Streaks(h), results, limit)
    ensures QuietBefore(h, limit) && !Terminal(h, limit) ==> QuietBefore(h + [results], limit)
  {
    var longer := h + [results];
    assert longer[..|h|] == h;
    assert forall i :: 0 <= i < |h| ==> longer[..i] == h[..i];
  }

  // ---- Safety partition of concurrent tool calls ----

  datatype Safety = Unmarked | ReadOnly | Idempotent | Destructive
  datatype ToolCall = ToolCall(name: string, id: nat)
  datatype Split = NoSafety | Parts(parallel: seq<ToolCall>, destructive: seq<ToolCall>)

  function Keep(calls: seq<ToolCall>, safety: string -> Safety, destructive: bool): seq<ToolCall> {
    if calls == [] then []
    else
      Keep(calls[..|calls| - 1], safety, destructive) +
      (var t := calls[|calls| - 1]; if (safety(t.name) == Destructive) == destructive then [t] else [])
  }

  lemma {:induction false} PartsCoverCalls(calls: seq<ToolCall>, safety: string -> Safety)
    ensures multiset(Keep(calls, safety, false)) + multiset(Keep(calls, safety, true)) == multiset(calls)
  {
    if calls != [] {
      PartsCoverCalls(calls[..|calls| - 1], safety);
      KeepLast(calls, safety, true);
      KeepLast(calls, safety, false);
      CoverLast(calls, Keep(calls[..|calls| - 1], safety, false), Keep(calls[..|calls| - 1], safety, true),
                safety(calls[|calls| - 1].name) == Destructive);
    }
  }

  lemma KeepLast(calls: seq<ToolCall>, safety: string -> Safety, destructive: bool)
    requires calls != []
    ensures var front, t := calls[..|calls| - 1], calls[|calls| - 1];
            Keep(calls, safety, destructive) ==
            With(Keep(front, safety, destructive), t, (safety(t.name) == Destructive) == destructive)
  {
  }

  lemma NothingKept(safety: string -> Safety)
    ensures Keep([], safety, false) == [] && Keep([], safety, true) == []
  {
  }

  function With(calls: seq<ToolCall>, t: ToolCall, also: bool): seq<ToolCall> {
    calls + (if also then [t] else [])
  }

  lemma CoverLast(calls: seq<ToolCall>, a: seq<ToolCall>, b: seq<ToolCall>, inB: bool)
    requires calls != [] && multiset(a) + multiset(b) == multiset(calls[..|calls| - 1])
    ensures var t := calls[|calls| - 1]; multiset(With(a, t, !inB)) + multiset(With(b, t, inB)) == multiset(calls)
  {
    var t := calls[|calls| - 1];
    WithCounts(a, t, !inB);
    WithCounts(b, t, inB);
    assert calls == With(calls[..|calls| - 1], t, true);
    WithCounts(calls[..|calls| - 1], t, true);
  }

  lemma WithCounts(calls: seq<ToolCall>, t: ToolCall, also: bool)
    ensures multiset(With(calls, t, also)) == if also then multiset(calls) + multiset{t} else multiset(calls)
  {
    assert calls + [] == calls;
  }

  /** Only calls of the asked-for kind end up in a part. */
  lemma {:induction false} PartsAreSafe(calls: seq<ToolCall>, safety: string -> Safety, destructive: bool)
    ensures forall t :: t in Keep(calls, safety, destructive) ==> (safety(t.name) == Destructive) == destructive
  {
    if calls != [] { PartsAreSafe(calls[..|calls| - 1], safety, destructive); }
  }

  /** A part keeps the order: its calls stand at ascending places of the list. */
  lemma {:induction false} PartKeepsOrder(calls: seq<ToolCall>, safety: string -> Safety, destructive: bool)
    returns (places: seq<nat>)
    ensures |places| == |Keep(calls, safety, destructive)|
    ensures forall i :: 0 <= i < |places| ==> places[i] < |calls| && calls[places[i]] == Keep(calls, safety, destructive)[i]
    ensures forall i, j :: 0 <= i < j < |places| ==> places[i] < places[j]
  {
    places := [];
    if calls != [] {
      var front := calls[..|calls| - 1];
      places := PartKeepsOrder(front, safety, destructive);
      assert forall k :: 0 <= k < |front| ==> front[k] == calls[k];
      KeepLast(calls, safety, destructive);
      if (safety(calls[|calls| - 1].name) == Destructive) == destructive { places := places + [|calls| - 1]; }
    }
  }

  predicate AnySafety(calls: seq<ToolCall>, safety: string -> Safety) {
    exists t :: t in calls && safety(t.name) != Unmarked
  }

  lemma AnySafetyIs(calls: seq<ToolCall>, safety: string -> Safety)
    ensures AnySafety(calls, safety) <==> !(forall t :: t in calls ==> safety(t.name) == Unmarked)
  {
  }

  lemma AnySafetyGrows(calls: seq<ToolCall>, t: ToolCall, safety: string -> Safety)
    ensures AnySafety(calls + [t], safety) <==> AnySafety(calls, safety) || safety(t.name) != Unmarked
    ensures !AnySafety([], safety)
  {
    if safety(t.name) != Unmarked { assert t in calls + [t]; }
    if AnySafety(calls, safety) {
      var u :| u in calls && safety(u.name) != Unmarked;
      assert u in calls + [t];
    }
  }

  /** Every call lands in exactly one part, and each part keeps the order of the calls. */
  method PartitionToolCallsBySafety(calls: seq<ToolCall>, safety: string -> Safety) returns (r: Split)
    ensures r == if AnySafety(calls, safety)
                 then Parts(Keep(calls, safety, false), Keep(calls, safety, true)) else NoSafety
    ensures r.NoSafety? <==> forall t :: t in calls ==> safety(t.name) == Unmarked
    ensures r.Parts? ==>
              && multiset(r.parallel) + multiset(r.destructive) == multiset(calls)
              && (forall t :: t in r.destructive ==> safety(t.name) == Destructive)
              && (forall t :: t in r.parallel ==> safety(t.name) != Destructive)
  {
    AnySafetyIs(calls, safety);
    hide AnySafety, Keep;
    AnySafetyGrows(calls, ToolCall("", 0), safety);
    NothingKept(safety);
    var hasAnySafety := false;
    var parallel: seq<ToolCall>, destructive: seq<ToolCall> := [], [];
    var i := 0;
    while i < |calls|
      invariant 0 <= i <= |calls|
      invariant parallel == Keep(calls[..i], safety, false) && destructive == Keep(calls[..i], safety, true)
      invariant hasAnySafety == AnySafety(calls[..i], safety)
    {
      var t := calls[i];
      assert calls[..i + 1][..i] == calls[..i];
      AnySafetyGrows(calls[..i], t, safety);
      assert calls[..i + 1] == calls[..i] + [t];
      KeepLast(calls[..i + 1], safety, true);
      KeepLast(calls[..i + 1], safety, false);
      if safety(t.name) != Unmarked { hasAnySafety := true; }
      if safety(t.name) == Destructive {
        destructive := destructive + [t];
      } else {
        parallel := parallel + [t];
      }
      i := i + 1;
    }
    assert calls[..|calls|] == calls;
    PartsCoverCalls(calls, safety);
    PartsAreSafe(calls, safety, true);
    PartsAreSafe(calls, safety, false);
    if !hasAnySafety { return NoSafety; }
    return Parts(parallel, destructive);
  }
}
