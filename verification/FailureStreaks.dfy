/**
 The per-(tool, error code) failure counters of the agent loop
 (packages/core/src/index.ts:2004-2008, 2203-2234).

 The source keys its counter map by the text `tool|code` and recovers the tool by cutting at the
 first `|`. `Streaks` is what the map holds after a history of iterations; it is compared with the
 reading the comments give it: failures since the tool last succeeded.
 */
module FailureStreaks {
  datatype ToolResult = ToolResult(tool: string, ok: bool, code: string)

  type Counters = map<string, nat>

  function Key(tool: string, code: string): string { tool + "|" + code }

  /** `key.split('|')[0]` */
  function ToolOf(key: string): string {
    if key == "" || key[0] == '|' then "" else [key[0]] + ToolOf(key[1..])
  }

  function Get(m: Counters, key: string): nat { if key in m then m[key] else 0 }

  /** Every failing result raises its counter. */
  function Bumped(m: Counters, results: seq<ToolResult>): Counters {
    if results == [] then m
    else
      var before := Bumped(m, results[..|results| - 1]);
      var r := results[|results| - 1];
      if r.ok then before else before[Key(r.tool, r.code) := Get(before, Key(r.tool, r.code)) + 1]
  }

  /** Did some counter reach the limit while the results were being counted? */
  predicate Reached(m: Counters, results: seq<ToolResult>, limit: int) {
    results != [] &&
    (var before := results[..|results| - 1];
     var r := results[|results| - 1];
     Reached(m, before, limit) || (!r.ok && Get(Bumped(m, before), Key(r.tool, r.code)) + 1 >= limit))
  }

  function Succeeded(results: seq<ToolResult>): set<string> {
    set r | r in results && r.ok :: r.tool
  }

  predicate Forgiven(key: string, successes: set<string>) {
    ToolOf(key) != "" && ToolOf(key) in successes
  }

  /** One iteration: count, then forget every counter of a tool that succeeded in it. */
  function Updated(m: Counters, results: seq<ToolResult>): Counters {
    var b := Bumped(m, results);
    map key | key in b && !Forgiven(key, Succeeded(results)) :: b[key]
  }

  type History = seq<seq<ToolResult>>

  function Streaks(h: History): Counters {
    if h == [] then map[] else Updated(Streaks(h[..|h| - 1]), h[|h| - 1])
  }

  /** Does the last iteration of the history end the loop? */
  predicate Terminal(h: History, limit: int) {
    h != [] && Reached(Streaks(h[..|h| - 1]), h[|h| - 1], limit)
  }

  // ---- What the counters hold, whatever the names ----

  function KeyFails(results: seq<ToolResult>, key: string): nat {
    if results == [] then 0
    else
      var r := results[|results| - 1];
      KeyFails(results[..|results| - 1], key) + (if !r.ok && Key(r.tool, r.code) == key then 1 else 0)
  }

  /** Failing results with the key since the last iteration that forgave it. */
  function KeyStreak(h: History, key: string): nat {
    if h == [] || Forgiven(key, Succeeded(h[|h| - 1])) then 0
    else KeyStreak(h[..|h| - 1], key) + KeyFails(h[|h| - 1], key)
  }

  lemma {:induction false} BumpedCounts(m: Counters, results: seq<ToolResult>, key: string)
    ensures Get(Bumped(m, results), key) == Get(m, key) + KeyFails(results, key)
  {
    if results != [] { BumpedCounts(m, results[..|results| - 1], key); }
  }

  lemma {:induction false} CounterIsKeyStreak(h: History, key: string)
    ensures Get(Streaks(h), key) == KeyStreak(h, key)
  {
    if h != [] {
      CounterIsKeyStreak(h[..|h| - 1], key);
      BumpedCounts(Streaks(h[..|h| - 1]), h[|h| - 1], key);
    }
  }

  // ---- The promised reading ----

  function Fails(results: seq<ToolResult>, tool: string, code: string): nat {
    if results == [] then 0
    else
      var r := results[|results| - 1];
      Fails(results[..|results| - 1], tool, code) + (if !r.ok && r.tool == tool && r.code == code then 1 else 0)
  }

  /** Failing results of the pair since the last iteration in which the tool succeeded. */
  function SinceSuccess(h: History, tool: string, code: string): nat {
    if h == [] || tool in Succeeded(h[|h| - 1]) then 0
    else SinceSuccess(h[..|h| - 1], tool, code) + Fails(h[|h| - 1], tool, code)
  }

  /** All failing results of the pair. */
  function TotalFails(h: History, tool: string, code: string): nat {
    if h == [] then 0 else TotalFails(h[..|h| - 1], tool, code) + Fails(h[|h| - 1], tool, code)
  }

  /** What is counted for a pair: the empty name is never forgiven. */
  function Due(h: History, tool: string, code: string): nat {
    if tool == "" then TotalFails(h, tool, code) else SinceSuccess(h, tool, code)
  }

  predicate PlainNames(results: seq<ToolResult>) {
    forall r :: r in results ==> '|' !in r.tool
  }

  predicate PlainHistory(h: History) {
    forall i :: 0 <= i < |h| ==> PlainNames(h[i])
  }

  /** No other pair of the history has the same key. */
  predicate Clear(h: History, tool: string, code: string) {
    '|' !in tool && ('|' !in code || PlainHistory(h))
  }

  /** Cutting a key at the first `|` gives back its tool exactly when the tool's name has none. */
  lemma {:induction false} ToolOfKey(tool: string, code: string)
    ensures ToolOf(Key(tool, code)) == tool <==> '|' !in tool
  {
    if tool != "" {
      ToolOfKey(tool[1..], code);
      assert Key(tool, code)[1..] == Key(tool[1..], code);
      assert tool == [tool[0]] + tool[1..];
    }
  }

  lemma KeysDiffer(tool: string, code: string, tool2: string, code2: string)
    requires '|' !in tool && ('|' !in code || '|' !in tool2)
    requires Key(tool, code) == Key(tool2, code2)
    ensures tool == tool2 && code == code2
  {
    var key := Key(tool, code);
    assert key[|tool|] == '|' && key[|tool2|] == '|';
    assert forall k :: 0 <= k < |tool| ==> key[k] == tool[k];
    assert forall k :: 0 <= k < |tool2| ==> key[k] == tool2[k];
    assert forall k :: |tool| < k < |key| ==> key[k] == code[k - |tool| - 1];
    assert key[|tool| + 1..] == code;
    assert key[..|tool|] == tool && key[..|tool2|] == tool2 && key[|tool2| + 1..] == code2;
  }

  lemma {:induction false} KeyFailsIsFails(results: seq<ToolResult>, tool: string, code: string)
    requires '|' !in tool && ('|' !in code || PlainNames(results))
    ensures KeyFails(results, Key(tool, code)) == Fails(results, tool, code)
  {
    if results != [] {
      hide Key;
      var r := results[|results| - 1];
      KeyFailsIsFails(results[..|results| - 1], tool, code);
      if Key(r.tool, r.code) == Key(tool, code) { KeysDiffer(tool, code, r.tool, r.code); }
    }
  }

  /** After every iteration the counter of a pair that shares its key with none is what is due. */
  lemma {:induction false} CounterIsStreak(h: History, tool: string, code: string)
    requires Clear(h, tool, code)
    ensures Get(Streaks(h), Key(tool, code)) == Due(h, tool, code)
  {
    CounterIsKeyStreak(h, Key(tool, code));
    if h != [] {
      hide Key, Streaks;
      CounterIsStreak(h[..|h| - 1], tool, code);
      CounterIsKeyStreak(h[..|h| - 1], Key(tool, code));
      KeyFailsIsFails(h[|h| - 1], tool, code);
      ToolOfKey(tool, code);
    }
  }

  // ---- Exactly the names that are counted as promised ----

  ghost predicate CountedRight(h: History, tool: string, code: string) {
    Get(Streaks(h), Key(tool, code)) == SinceSuccess(h, tool, code)
  }

  predicate OthersPlain(h: History, tool: string) {
    forall i, r :: 0 <= i < |h| && r in h[i] ==> r.tool == tool || '|' !in r.tool
  }

  /** A pair is counted right in every history if and only if its tool has a name and neither part has a bar. */
  lemma CountedRightExactly(tool: string, code: string)
    ensures (forall h: History :: CountedRight(h, tool, code)) <==> tool != "" && '|' !in tool && '|' !in code
  {
    if tool == "" || '|' in tool {
      SuccessNotForgiven(tool, code);
    } else if '|' in code {
      var i :| 0 <= i < |code| && code[i] == '|';
      SharedCounter(tool, code, i);
    } else {
      forall h: History ensures CountedRight(h, tool, code) { CounterIsStreak(h, tool, code); }
    }
  }

  /** With plain names beside it, a tool is counted right for all codes if and only if its name is plain and not empty. */
  lemma PlainToolsExactly(tool: string)
    ensures (forall h: History, code :: OthersPlain(h, tool) ==> CountedRight(h, tool, code)) <==>
            tool != "" && '|' !in tool
  {
    if tool == "" || '|' in tool {
      SuccessNotForgiven(tool, "c");
      assert OthersPlain(FailThenSucceed(tool, "c"), tool);
    } else {
      forall h: History, code | OthersPlain(h, tool) ensures CountedRight(h, tool, code) {
        CounterIsStreak(h, tool, code);
      }
    }
  }

  function FailThenSucceed(tool: string, code: string): History {
    [[ToolResult(tool, false, code)], [ToolResult(tool, true, code)]]
  }

  /** An empty name and a name with a bar are not forgiven when the tool succeeds. */
  lemma SuccessNotForgiven(tool: string, code: string)
    requires tool == "" || '|' in tool
    ensures !CountedRight(FailThenSucceed(tool, code), tool, code)
  {
    var h := FailThenSucceed(tool, code);
    var fail, ok := ToolResult(tool, false, code), ToolResult(tool, true, code);
    var key := Key(tool, code);
    ToolOfKey(tool, code);
    CounterIsKeyStreak(h, key);
    assert h[..1] == [[fail]] && [[fail]][..0] == [] && [fail][..0] == [] && [ok][..0] == [];
    assert ok in h[1] && Succeeded([ok]) == {tool} && Succeeded([fail]) == {};
    assert KeyFails([fail], key) == 1 && KeyFails([ok], key) == 0;
    assert KeyStreak([[fail]], key) == 1 && KeyStreak(h, key) == 1;
  }

  /** A bar in the code gives the counter to a second tool as well, whose failures it then counts. */
  lemma SharedCounter(tool: string, code: string, i: nat)
    requires i < |code| && code[i] == '|'
    ensures !CountedRight([[ToolResult(tool + "|" + code[..i], false, code[i + 1..])]], tool, code)
  {
    var r := ToolResult(tool + "|" + code[..i], false, code[i + 1..]);
    assert code == code[..i] + "|" + code[i + 1..];
    assert Key(r.tool, r.code) == Key(tool, code) && |r.tool| > |tool|;
    OneFailure(r, tool, code);
  }

  lemma OneFailure(r: ToolResult, tool: string, code: string)
    requires !r.ok && r.tool != tool && Key(r.tool, r.code) == Key(tool, code)
    ensures !CountedRight([[r]], tool, code)
  {
    hide Key, Streaks;
    var h: History := [[r]];
    assert h[..0] == [] && h[0] == [r] && [r][..0] == [] && Succeeded([r]) == {};
    CounterIsKeyStreak(h, Key(tool, code));
    assert KeyFails([r], Key(tool, code)) == 1 && Fails([r], tool, code) == 0;
    assert KeyStreak(h[..0], Key(tool, code)) == 0 && SinceSuccess(h[..0], tool, code) == 0;
  }

  /** The empty name is counted right until it succeeds. */
  lemma {:induction false} EmptyNameUntilSuccess(h: History, code: string)
    requires Clear(h, "", code) && forall i :: 0 <= i < |h| ==> "" !in Succeeded(h[i])
    ensures CountedRight(h, "", code)
  {
    CounterIsStreak(h, "", code);
    if h != [] {
      hide Streaks, Succeeded, Key;
      EmptyNameUntilSuccess(h[..|h| - 1], code);
      CounterIsStreak(h[..|h| - 1], "", code);
    }
  }

  // ---- When the loop stops ----

  /** A counter reached the limit exactly when some failing pair of the last iteration stands at it. */
  lemma {:induction false} ReachedIffCounter(m: Counters, results: seq<ToolResult>, limit: int)
    ensures Reached(m, results, limit) <==>
            exists i :: 0 <= i < |results| && !results[i].ok &&
                        Get(Bumped(m, results), Key(results[i].tool, results[i].code)) >= limit
  {
    if results != [] {
      var before, last := results[..|results| - 1], results[|results| - 1];
      var b, b' := Bumped(m, before), Bumped(m, results);
      var lastKey := Key(last.tool, last.code);
      ReachedIffCounter(m, before, limit);
      if Reached(m, results, limit) {
        if Reached(m, before, limit) {
          var i :| 0 <= i < |before| && !before[i].ok && Get(b, Key(before[i].tool, before[i].code)) >= limit;
          assert results[i] == before[i] && Get(b', Key(results[i].tool, results[i].code)) >= limit;
        } else {
          assert results[|results| - 1] == last && Get(b', lastKey) >= limit;
        }
      }
      if exists i :: 0 <= i < |results| && !results[i].ok && Get(b', Key(results[i].tool, results[i].code)) >= limit {
        var i :| 0 <= i < |results| && !results[i].ok && Get(b', Key(results[i].tool, results[i].code)) >= limit;
        var key := Key(results[i].tool, results[i].code);
        if last.ok || key != lastKey {
          assert before[i] == results[i] && Get(b, key) == Get(b', key);
        }
      }
    }
  }

  /** In any history the loop stops exactly when a failing result of the last iteration finds its key at the limit. */
  lemma TerminalByKey(h: History, limit: int)
    requires h != []
    ensures Terminal(h, limit) <==>
            exists r :: r in h[|h| - 1] && !r.ok &&
                        KeyStreak(h[..|h| - 1], Key(r.tool, r.code)) + KeyFails(h[|h| - 1], Key(r.tool, r.code)) >= limit
  {
    hide Key, KeyStreak, KeyFails, Streaks, Bumped, Reached;
    var before, results := h[..|h| - 1], h[|h| - 1];
    ReachedIffCounter(Streaks(before), results, limit);
    forall i | 0 <= i < |results|
      ensures results[i] in results
      ensures Get(Bumped(Streaks(before), results), Key(results[i].tool, results[i].code)) ==
              KeyStreak(before, Key(results[i].tool, results[i].code)) + KeyFails(results, Key(results[i].tool, results[i].code))
    {
      CounterIsKeyStreak(before, Key(results[i].tool, results[i].code));
      BumpedCounts(Streaks(before), results, Key(results[i].tool, results[i].code));
    }
  }

  /** A failing result of the last iteration whose pair has now failed `limit` times in a row. */
  predicate StandsAtLimit(h: History, r: ToolResult, limit: int)
    requires h != []
  {
    !r.ok && Due(h[..|h| - 1], r.tool, r.code) + Fails(h[|h| - 1], r.tool, r.code) >= limit
  }

  /**
   The loop stops after the first iteration in which some tool has, for one error code, failed `limit`
   times since its last earlier success, counting this iteration; a tool without a name, since the start.
   */
  lemma TerminalMeansStreak(h: History, limit: int)
    requires h != [] && forall r :: r in h[|h| - 1] && !r.ok ==> Clear(h, r.tool, r.code)
    ensures Terminal(h, limit) <==>
            exists r :: r in h[|h| - 1] && StandsAtLimit(h, r, limit)
  {
    hide Key, KeyStreak, KeyFails, Streaks, Due, Fails, Terminal;
    var before, results := h[..|h| - 1], h[|h| - 1];
    TerminalByKey(h, limit);
    forall r | r in results && !r.ok
      ensures StandsAtLimit(h, r, limit) <==>
              KeyStreak(before, Key(r.tool, r.code)) + KeyFails(results, Key(r.tool, r.code)) >= limit
    {
      CounterIsStreak(before, r.tool, r.code);
      CounterIsKeyStreak(before, Key(r.tool, r.code));
      KeyFailsIsFails(results, r.tool, r.code);
    }
  }

  /** A name with `|` in it shares its counter with another tool, which need not even have run. */
  lemma PipeInNameConfusesTools()
    ensures var h := [[ToolResult("a|b", false, "c")]];
            Get(Streaks(h), Key("a", "b|c")) == 1 && SinceSuccess(h, "a", "b|c") == 0
  {
    var r := ToolResult("a|b", false, "c");
    var h := [[r]];
    assert Key("a|b", "c") == Key("a", "b|c") == "a|b|c";
    assert [r][..0] == [] && h[..0] == [];
    assert Streaks(h) == Updated(map[], [r]);
    assert Succeeded([r]) == {};
  }

  // ---- The loops ----

  method CountFailures(m0: Counters, results: seq<ToolResult>, limit: int)
    returns (m: Counters, terminal: bool, successes: set<string>)
    ensures m == Bumped(m0, results) && terminal == Reached(m0, results, limit) && successes == Succeeded(results)
  {
    m, terminal, successes := m0, false, {};
    var i := 0;
    while i < |results|
      invariant 0 <= i <= |results|
      invariant m == Bumped(m0, results[..i]) && terminal == Reached(m0, results[..i], limit)
      invariant successes == Succeeded(results[..i])
    {
      var r := results[i];
      assert results[..i + 1][..i] == results[..i];
      SucceededGrows(results, i);
      if r.ok {
        successes := successes + {r.tool};
      } else {
        var key := Key(r.tool, r.code);
        var next := Get(m, key) + 1;
        m := m[key := next];
        if next >= limit { terminal := true; }
      }
      i := i + 1;
    }
    assert results[..|results|] == results;
  }

  method ForgetSucceeded(b: Counters, successes: set<string>) returns (m: Counters)
    ensures m == map key | key in b && !Forgiven(key, successes) :: b[key]
  {
    m := b;
    var keys := b.Keys;
    while keys != {}
      invariant keys <= b.Keys
      invariant forall key :: key in m <==> key in b && (key in keys || !Forgiven(key, successes))
      invariant forall key :: key in m ==> m[key] == b[key]
      decreases |keys|
    {
      var k :| k in keys;
      keys := keys - {k};
      if Forgiven(k, successes) {
        m := m - {k};
      }
    }
  }

  /** The counting loop and the resetting loop of one iteration. */
  method UpdateStreaks(m0: Counters, results: seq<ToolResult>, limit: int) returns (m: Counters, terminal: bool)
    ensures m == Updated(m0, results)
    ensures terminal == Reached(m0, results, limit)
  {
    var successes;
    m, terminal, successes := CountFailures(m0, results, limit);
    m := ForgetSucceeded(m, successes);
  }

  lemma SucceededGrows(results: seq<ToolResult>, i: nat)
    requires i < |results|
    ensures Succeeded(results[..i + 1]) == Succeeded(results[..i]) + (if results[i].ok then {results[i].tool} else {})
  {
    assert results[..i + 1] == results[..i] + [results[i]];
  }
}
