/**
 Whole agent runs told without their counters (packages/core/src/index.ts:1102-1131, 1134-1209, 1965-2408): which
 attempts a provider call makes, which verdicts a response passes, and which iteration is the last and why.
 */
module AgentRuns {
  import opened FailureStreaks
  import opened AgentLoop

  // ---- The attempts of a provider call ----

  /** An attempt: the provider that is asked, and how often it was asked before in this call. */
  datatype Try = Try(provider: nat, retry: nat)

  /** May the attempt be repeated at the same provider? */
  predicate Repeats(c: Config, w: World, t: Try, j: nat) {
    w.attempt(j).Failed? && w.attempt(j).retryable && t.retry < c.retryDelays
  }

  /** Behind failed attempt `j` it is repeated if it may be, else the next provider is asked. */
  predicate TryFollows(c: Config, w: World, j: nat, before: Try, t: Try) {
    && w.attempt(j).Failed?
    && (if Repeats(c, w, before, j) then t == Try(before.provider, before.retry + 1) && !w.abortWaiting(j)
        else t == Try(before.provider + 1, 0) && !w.abortBefore(j + 1))
  }

  predicate TriesFollow(c: Config, w: World, k: nat, tries: seq<Try>) {
    forall i :: 0 <= i < |tries| - 1 ==> TryFollows(c, w, k + i, tries[i], tries[i + 1])
  }

  /** Why the call ends behind its last attempt: it answered, the wait or the next provider was aborted, or none is left. */
  predicate CallEnds(c: Config, w: World, k: nat, tries: seq<Try>, o: Outcome) {
    if tries == [] then
      if c.providers == 0 then o == Error(false) else w.abortBefore(k) && o == Aborted
    else
      var t, j := tries[|tries| - 1], k + |tries| - 1;
      match w.attempt(j)
      case Answered(hasTools) => o == Response(hasTools)
      case Failed(_, overflow) =>
        if Repeats(c, w, t, j) then w.abortWaiting(j) && o == Aborted
        else if t.provider + 1 < c.providers then w.abortBefore(j + 1) && o == Aborted
        else o == Error(overflow)
  }

  predicate TriesFit(c: Config, tries: seq<Try>) {
    forall i :: 0 <= i < |tries| ==> tries[i].provider < c.providers && tries[i].retry <= c.retryDelays
  }

  lemma {:induction false} FallbackTries(c: Config, w: World, k: nat, p: nat, retry: nat, last: Outcome)
    returns (tries: seq<Try>)
    requires retry <= c.retryDelays && p < c.providers && (retry == 0 ==> !w.abortBefore(k))
    ensures var (o, n) := Fallback(c, w, k, p, retry, last);
            n == k + |tries| && tries != [] && tries[0] == Try(p, retry) &&
            TriesFit(c, tries) && TriesFollow(c, w, k, tries) && CallEnds(c, w, k, tries, o)
    decreases c.providers - p, c.retryDelays - retry
  {
    var t := Try(p, retry);
    tries := [t];
    match w.attempt(k)
    case Answered(_) =>
    case Failed(retryable, overflow) =>
      if Repeats(c, w, t, k) {
        if !w.abortWaiting(k) {
          var more := FallbackTries(c, w, k + 1, p, retry + 1, Error(overflow));
          TriesMore(c, w, k, t, more, Fallback(c, w, k, p, retry, last).0);
          tries := [t] + more;
        }
      } else if p + 1 < c.providers && !w.abortBefore(k + 1) {
        var more := FallbackTries(c, w, k + 1, p + 1, 0, Error(overflow));
        TriesMore(c, w, k, t, more, Fallback(c, w, k, p, retry, last).0);
        tries := [t] + more;
      }
  }

  lemma TriesMore(c: Config, w: World, k: nat, t: Try, more: seq<Try>, o: Outcome)
    requires more != [] && t.provider < c.providers && t.retry <= c.retryDelays && TryFollows(c, w, k, t, more[0])
    requires TriesFit(c, more) && TriesFollow(c, w, k + 1, more) && CallEnds(c, w, k + 1, more, o)
    ensures var tries := [t] + more;
            TriesFit(c, tries) && TriesFollow(c, w, k, tries) && CallEnds(c, w, k, tries, o)
  {
    hide Repeats, TryFollows;
    var tries := [t] + more;
    forall i | 0 <= i < |tries| - 1 ensures TryFollows(c, w, k + i, tries[i], tries[i + 1]) {
      if i > 0 {
        assert tries[i] == more[i - 1] && tries[i + 1] == more[i] && (k + 1) + (i - 1) == k + i;
      }
    }
    var last := |more| - 1;
    assert tries[|tries| - 1] == more[last] && k + |tries| - 1 == (k + 1) + |more| - 1;
  }

  /**
   The attempts of a provider call, one after the other: the first provider first, a failure repeated while it is
   retryable and retries are left, else the next provider asked; and how the call ends.
   */
  lemma CallTries(c: Config, w: World, m: Meter) returns (tries: seq<Try>)
    ensures var (o, n) := Generated(c, w, m);
            && n == Meter(m.generates + 1, m.attempts + |tries|, m.verdicts)
            && (tries != [] ==> tries[0] == Try(0, 0) && !w.abortBefore(m.attempts))
            && TriesFit(c, tries) && TriesFollow(c, w, m.attempts, tries) && CallEnds(c, w, m.attempts, tries, o)
  {
    tries := [];
    if c.providers > 0 && !w.abortBefore(m.attempts) {
      tries := FallbackTries(c, w, m.attempts, 0, 0, Error(false));
    }
  }

  // ---- The verdicts on a response ----

  /** A response under the output transform: what was consulted before its verdict, and whether it asks for tools. */
  datatype Answer = Answer(m: Meter, hasTools: bool)

  function Seen(m: Meter): Meter { Meter(m.generates, m.attempts, m.verdicts + 1) }

  /** An answer was dropped, and this one was fetched for it. */
  predicate AnswerFollows(c: Config, w: World, before: Answer, a: Answer) {
    w.verdict(before.m.verdicts) == Drop && Generated(c, w, Seen(before.m)) == (Response(a.hasTools), a.m)
  }

  predicate AnswersFollow(c: Config, w: World, answers: seq<Answer>) {
    forall i :: 0 <= i < |answers| - 1 ==> AnswerFollows(c, w, answers[i], answers[i + 1])
  }

  /** The verdict on the last answer decides; a dropped one is kept only when all retries are used up. */
  predicate PipelineEnds(c: Config, w: World, answers: seq<Answer>, left: nat, r: (Outcome, Meter)) {
    answers != [] &&
    var last := answers[|answers| - 1];
    match w.verdict(last.m.verdicts)
    case Pass(hasTools) => r == (Response(hasTools), Seen(last.m))
    case Throw => r == (Error(false), Seen(last.m))
    case Drop =>
      if left == 0 then r == (Response(last.hasTools), Seen(last.m))
      else r == Generated(c, w, Seen(last.m)) && !r.0.Response?
  }

  lemma {:induction false} PipelineAnswers(c: Config, w: World, m: Meter, current: bool, retry: nat)
    returns (answers: seq<Answer>)
    requires c.hasTransform && retry <= c.maxRetries
    ensures answers != [] && answers[0] == Answer(m, current) && |answers| <= 1 + c.maxRetries - retry
    ensures AnswersFollow(c, w, answers)
    ensures PipelineEnds(c, w, answers, 1 + c.maxRetries - retry - |answers|, Pipeline(c, w, m, current, retry))
    decreases c.maxRetries - retry
  {
    hide Generated;
    answers := [Answer(m, current)];
    if w.verdict(m.verdicts).Drop? && retry < c.maxRetries {
      var (o, n) := Generated(c, w, Seen(m));
      if o.Response? {
        var more := PipelineAnswers(c, w, n, o.hasTools, retry + 1);
        AnswersMore(c, w, Answer(m, current), more);
        answers := [Answer(m, current)] + more;
        assert answers[|answers| - 1] == more[|more| - 1];
      }
    }
  }

  lemma AnswersMore(c: Config, w: World, a: Answer, more: seq<Answer>)
    requires more != [] && AnswersFollow(c, w, more) && AnswerFollows(c, w, a, more[0])
    ensures AnswersFollow(c, w, [a] + more)
  {
    hide AnswerFollows;
    var answers := [a] + more;
    forall i | 0 <= i < |answers| - 1 ensures AnswerFollows(c, w, answers[i], answers[i + 1]) {
      if i > 0 { assert answers[i] == more[i - 1] && answers[i + 1] == more[i]; }
    }
  }

  /** A fetch: a failed call fails it; else the answers and verdicts behind it, or none without a transform. */
  lemma FetchAnswers(c: Config, w: World, m: Meter) returns (answers: seq<Answer>)
    ensures var call := Generated(c, w, m);
            if !call.0.Response? then Fetched(c, w, m) == call
            else if !c.hasTransform then Fetched(c, w, m) == call
            else
              && answers != [] && call == (Response(answers[0].hasTools), answers[0].m) && |answers| <= 1 + c.maxRetries
              && AnswersFollow(c, w, answers)
              && PipelineEnds(c, w, answers, 1 + c.maxRetries - |answers|, Fetched(c, w, m))
  {
    hide Generated;
    answers := [];
    var (o, n) := Generated(c, w, m);
    if o.Response? && c.hasTransform { answers := PipelineAnswers(c, w, n, o.hasTools, 0); }
  }

  /**
   The first fetch is a fetch like any other, unless its call overflows the context and compaction helps: then the
   call is made once more, its answer takes the same way, and if it fails too the overflow is what is reported.
   */
  lemma FirstFetchRecovers(c: Config, w: World)
    ensures var start := Meter(0, 0, 0);
            var (first, m) := Generated(c, w, start);
            var (again, k) := Generated(c, w, m);
            if !(w.compacts && first == Error(true)) then FirstFetched(c, w) == Fetched(c, w, start)
            else if again.Response? then FirstFetched(c, w) == Fetched(c, w, m)
            else FirstFetched(c, w) == (Error(true), k)
  {
    hide Generated, Pipeline;
  }

  // ---- The iterations of a run ----

  predicate Failing(results: seq<ToolResult>) {
    exists r :: r in results && !r.ok
  }

  /** How many iterations had a failing result. */
  function FailCount(h: History): nat {
    if h == [] then 0 else FailCount(h[..|h| - 1]) + if Failing(h[|h| - 1]) then 1 else 0
  }

  /** A failing iteration that nothing is left to reflect on, in a run that stops on tool errors. */
  predicate Fatal(c: Config, h: History)
    requires h != []
  {
    && Failing(h[|h| - 1]) && c.stopOnToolError
    && (!c.errorReflection || FailCount(h[..|h| - 1]) >= c.maxReflections)
  }

  /** The tool results of the first `n` iterations. */
  function Before(w: World, n: nat): (h: History)
    ensures |h| == n && forall i :: 0 <= i < n ==> h[i] == w.tools(i)
  {
    seq(n, i requires 0 <= i < n => w.tools(i))
  }

  /**
   Iteration `from + i`, which began with answer `i`, was let in, called its tools without ending the loop, and
   fetched the next answer.
   */
  predicate GoesOn(c: Config, w: World, answers: seq<Answer>, from: nat, i: nat)
    requires i + 1 < |answers|
  {
    var n := from + i;
    && !w.abortAt(n) && !w.overBudget(n) && answers[i].hasTools && !w.toolsThrow(n)
    && !Terminal(Before(w, n + 1), c.streakLimit) && !Fatal(c, Before(w, n + 1))
    && Fetched(c, w, answers[i].m) == (Response(answers[i + 1].hasTools), answers[i + 1].m)
  }

  /** The run ends where it stands, or with a synthesis if the budget is used up and one is wanted. */
  predicate EndsWith(c: Config, w: World, exhausted: bool, reason: Reason, h: History, m: Meter, fetches: nat, r: Result) {
    if exhausted && c.synthesize then
      var (o, k) := Fetched(c, w, m);
      r == Result(if o.Response? then Finished(BudgetExhaustedWithSynthesis) else Threw, h, k, fetches)
    else r == Result(Finished(reason), h, m, fetches)
  }

  /** How the run ends in iteration `n`, which began with this answer. */
  predicate LastRound(c: Config, w: World, n: nat, a: Answer, r: Result) {
    if n == c.maxIterations then EndsWith(c, w, a.hasTools, Natural, Before(w, n), a.m, n, r)
    else if w.abortAt(n) then r == Result(Threw, Before(w, n), a.m, n)
    else if w.overBudget(n) then EndsWith(c, w, true, Natural, Before(w, n), a.m, n, r)
    else if !a.hasTools then r == Result(Finished(Natural), Before(w, n), a.m, n)
    else if w.toolsThrow(n) then r == Result(Threw, Before(w, n), a.m, n)
    else
      var h := Before(w, n + 1);
      if Terminal(h, c.streakLimit) then EndsWith(c, w, n + 1 == c.maxIterations, ToolErrorTerminal, h, a.m, n, r)
      else if Fatal(c, h) then r == Result(Finished(Natural), h, a.m, n)
      else !Fetched(c, w, a.m).0.Response? && r == Result(Threw, h, Fetched(c, w, a.m).1, n + 1)
  }

  predicate Reflected(c: Config, p: Progress) {
    p.reflections ==
    if !c.errorReflection then 0 else if FailCount(p.h) < c.maxReflections then FailCount(p.h) else c.maxReflections
  }

  lemma BeforeMore(w: World, n: nat)
    ensures Before(w, n + 1) == Before(w, n) + [w.tools(n)] && Before(w, n + 1)[..n] == Before(w, n)
  {
  }

  lemma FatalIs(c: Config, p: Progress, results: seq<ToolResult>)
    requires Reflected(c, p)
    ensures Fatal(c, p.h + [results]) <==> StopsOnErrors(c, results, p.reflections)
    ensures FailCount(p.h + [results]) == FailCount(p.h) + if Failing(results) then 1 else 0
    ensures Reflects(c, results, p.reflections) <==> c.errorReflection && Failing(results) && FailCount(p.h) < c.maxReflections
  {
    assert (p.h + [results])[..|p.h|] == p.h;
  }

  /** The next iteration is not the last one. */
  predicate Further(c: Config, w: World, p: Progress) {
    var i := |p.h|;
    && i < c.maxIterations && !w.abortAt(i) && !w.overBudget(i) && p.hasTools && !w.toolsThrow(i)
    && !Terminal(p.h + [w.tools(i)], c.streakLimit) && !Fatal(c, p.h + [w.tools(i)])
    && Fetched(c, w, p.m).0.Response?
  }

  lemma RoundsFurther(c: Config, w: World, p: Progress) returns (q: Progress)
    requires |p.h| == p.fetches && Reflected(c, p) && Further(c, w, p)
    ensures q.h == p.h + [w.tools(|p.h|)] && |q.h| == q.fetches <= c.maxIterations && Reflected(c, q)
    ensures Fetched(c, w, p.m) == (Response(q.hasTools), q.m) && Rounds(c, w, p) == Rounds(c, w, q)
  {
    hide Fetched, Terminal, Fatal, StopsOnErrors, Reflects, FailCount;
    var results := w.tools(|p.h|);
    FatalIs(c, p, results);
    var (o, m) := Fetched(c, w, p.m);
    var reflections := p.reflections + (if Reflects(c, results, p.reflections) then 1 else 0);
    q := Progress(p.h + [results], m, o.hasTools, reflections, p.fetches + 1);
  }

  lemma RoundsStop(c: Config, w: World, p: Progress)
    requires |p.h| == p.fetches <= c.maxIterations && p.h == Before(w, |p.h|) && Reflected(c, p) && !Further(c, w, p)
    ensures LastRound(c, w, |p.h|, Answer(p.m, p.hasTools), Ended(c, w, Rounds(c, w, p)))
  {
    hide Fetched, Terminal, Fatal, StopsOnErrors, Reflects, FailCount, Reflected;
    var i := |p.h|;
    BeforeMore(w, i);
    FatalIs(c, p, w.tools(i));
  }

  predicate AllGoOn(c: Config, w: World, answers: seq<Answer>, from: nat) {
    forall i :: 0 <= i < |answers| - 1 ==> GoesOn(c, w, answers, from, i)
  }

  lemma {:induction false} RoundsLog(c: Config, w: World, p: Progress) returns (answers: seq<Answer>)
    requires |p.h| == p.fetches <= c.maxIterations && p.h == Before(w, |p.h|) && Reflected(c, p)
    ensures answers != [] && answers[0] == Answer(p.m, p.hasTools) && |p.h| + |answers| - 1 <= c.maxIterations
    ensures AllGoOn(c, w, answers, |p.h|)
    ensures var n := |p.h| + |answers| - 1;
            LastRound(c, w, n, answers[|answers| - 1], Ended(c, w, Rounds(c, w, p)))
    decreases c.maxIterations - |p.h|
  {
    hide Fetched, Terminal, Fatal, Reflected, Rounds, LastRound;
    answers := [Answer(p.m, p.hasTools)];
    if Further(c, w, p) {
      BeforeMore(w, |p.h|);
      var q := RoundsFurther(c, w, p);
      var more := RoundsLog(c, w, q);
      LogMore(c, w, Answer(p.m, p.hasTools), more, |p.h|);
      answers := [Answer(p.m, p.hasTools)] + more;
    } else {
      RoundsStop(c, w, p);
    }
  }

  lemma LogMore(c: Config, w: World, a: Answer, more: seq<Answer>, from: nat)
    requires more != [] && GoesOn(c, w, [a] + more, from, 0)
    requires AllGoOn(c, w, more, from + 1)
    ensures AllGoOn(c, w, [a] + more, from)
  {
    hide Fetched, Terminal, Fatal;
    var all := [a] + more;
    forall i | 0 <= i < |more| ensures GoesOn(c, w, all, from, i) {
      if i > 0 {
        assert GoesOn(c, w, more, from + 1, i - 1);
        assert all[i] == more[i - 1] && all[i + 1] == more[i] && from + 1 + (i - 1) == from + i;
      }
    }
  }

  /** The answers with which the iterations of a run began, and how it ended. */
  predicate Log(c: Config, w: World, answers: seq<Answer>) {
    var (o, m) := FirstFetched(c, w);
    if !o.Response? then Ran(c, w) == Result(Threw, [], m, 0)
    else
      && answers != [] && answers[0] == Answer(m, o.hasTools) && |answers| <= c.maxIterations + 1
      && AllGoOn(c, w, answers, 0)
      && LastRound(c, w, |answers| - 1, answers[|answers| - 1], Ran(c, w))
  }

  /**
   Every run, answer by answer: from the first fetch on, each iteration but the last was let in, called its tools
   without ending the loop and fetched the next answer, and the last one ends the run in just the way stated.
   */
  lemma RunLog(c: Config, w: World) returns (answers: seq<Answer>)
    ensures Log(c, w, answers)
  {
    hide FirstFetched, Fetched, Rounds, Ended, LastRound, Terminal, Fatal;
    answers := [];
    var (o, m) := FirstFetched(c, w);
    if o.Response? {
      answers := RoundsLog(c, w, Progress([], m, o.hasTools, 0, 0));
    }
  }

  // ---- What a reader of a run's history can tell ----

  /** Is the history that of the first iterations of the world, each but the last one going on? */
  lemma HistoryOf(c: Config, w: World, n: nat, a: Answer, r: Result)
    requires LastRound(c, w, n, a, r) && n <= c.maxIterations
    ensures r.h == Before(w, |r.h|) && (|r.h| == n || |r.h| == n + 1)
    ensures |r.h| == n ==> r.fetches == n
    ensures |r.h| == n + 1 ==>
              (if Terminal(r.h, c.streakLimit) || Fatal(c, r.h) then r.fetches == n && (r.ending == Threw ==> c.synthesize)
               else r.fetches == n + 1 && r.ending == Threw)
    ensures |r.h| == n + 1 && Fatal(c, r.h) && !Terminal(r.h, c.streakLimit) ==> r.ending == Finished(Natural)
  {
    hide Fetched, Terminal, Fatal;
  }

  /** The history up to and including an iteration. */
  function UpTo(h: History, i: nat): (r: History)
    requires i < |h|
    ensures |r| == i + 1
  {
    h[..i + 1]
  }

  /**
   Tool errors end a run exactly as they are set to. If iteration `i` fails, the run stops on tool errors, and
   reflection is off or at least as many iterations before it failed as reflections are allowed, then it is the
   last one and nothing is fetched behind it; and the last iteration is without a fetch behind it only if it is
   such a one or a streak ended the run.
   */
  lemma ToolErrorsEndRun(c: Config, w: World)
    ensures var r := Ran(c, w);
            && (forall i :: 0 <= i < |r.h| && Fatal(c, UpTo(r.h, i)) ==> i == |r.h| - 1 && r.fetches == |r.h| - 1)
            && (r.fetches < |r.h| <==> r.h != [] && (Terminal(r.h, c.streakLimit) || Fatal(c, r.h)))
            && (r.h != [] && Fatal(c, r.h) && !Terminal(r.h, c.streakLimit) ==> r.ending == Finished(Natural))
  {
    hide FirstFetched, Fetched, Ran, LastRound, Terminal, Fatal;
    var answers := RunLog(c, w);
    var r := Ran(c, w);
    if FirstFetched(c, w).0.Response? {
      var n := |answers| - 1;
      HistoryOf(c, w, n, answers[n], r);
      forall i | 0 <= i < |r.h|
        ensures i < n ==> !Fatal(c, UpTo(r.h, i)) && !Terminal(UpTo(r.h, i), c.streakLimit)
      {
        if i < n {
          assert GoesOn(c, w, answers, 0, i);
          assert UpTo(r.h, i) == Before(w, i + 1);
        }
      }
      if r.h != [] { assert UpTo(r.h, |r.h| - 1) == r.h; }
    }
  }

  /** The token or the iteration budget is used up when iteration `n`, which begins with this answer, is to run or has run. */
  predicate UsedUp(c: Config, w: World, n: nat, a: Answer) {
    if n == c.maxIterations then a.hasTools
    else
      && !w.abortAt(n)
      && (w.overBudget(n) ||
          (a.hasTools && !w.toolsThrow(n) && n + 1 == c.maxIterations && Terminal(Before(w, n + 1), c.streakLimit)))
  }

  /** A run reports a synthesis exactly when one is wanted and comes, and its last iteration found a budget used up. */
  lemma SynthesisExactly(c: Config, w: World, answers: seq<Answer>)
    requires Log(c, w, answers) && FirstFetched(c, w).0.Response?
    ensures var n, last := |answers| - 1, answers[|answers| - 1];
            Ran(c, w).ending == Finished(BudgetExhaustedWithSynthesis) <==>
            c.synthesize && UsedUp(c, w, n, last) && Fetched(c, w, last.m).0.Response?
  {
    hide FirstFetched, Fetched, Ran, Terminal, Fatal;
  }
}
