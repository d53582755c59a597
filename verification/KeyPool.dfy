/**
 The single-provider key pool (`ProviderKeyPool`, packages/gateway/src/credential-pool.ts:66-175).
 The clock is a parameter of every call; a key's position in the list is its insertion index.
 */
module KeyPool {
  import opened Options

  datatype KeyState = KeyState(key: string, usageCount: nat, lastUsedAt: int, rotated: bool, cooldownUntil: int)
  datatype Cursor = LeastUsed | RoundRobin

  datatype Pool = Pool(states: seq<KeyState>, cursor: Cursor, cooldownMs: int, rrIndex: nat)
  {
    predicate Valid() {
      |states| > 0 && rrIndex < |states|
    }
  }

  function NewPool(keys: seq<string>, cursor: Cursor, cooldownMs: int): Pool {
    Pool(seq(|keys|, i requires 0 <= i < |keys| => KeyState(keys[i], 0, 0, false, 0)), cursor, cooldownMs, 0)
  }

  predicate Available(s: KeyState, now: int) {
    !s.rotated && s.cooldownUntil <= now
  }

  // ---- Least used ----

  /** Strictly preferred by `least_used`: fewer uses, then longer idle, then earlier in the list. */
  predicate Preferred(states: seq<KeyState>, a: nat, b: nat)
    requires a < |states| && b < |states|
  {
    var x, y := states[a], states[b];
    x.usageCount < y.usageCount ||
    (x.usageCount == y.usageCount && (x.lastUsedAt < y.lastUsedAt || (x.lastUsedAt == y.lastUsedAt && a < b)))
  }

  /** The reduction over the available keys from position `i` on. */
  function Best(states: seq<KeyState>, now: int, i: nat, best: Option<nat>): (r: Option<nat>)
    requires i <= |states| && (best.Some? ==> best.value < |states|)
    ensures r.Some? ==> r.value < |states|
    decreases |states| - i
  {
    if i == |states| then best
    else if !Available(states[i], now) then Best(states, now, i + 1, best)
    else if best.None? || Preferred(states, i, best.value) then Best(states, now, i + 1, Some(i))
    else Best(states, now, i + 1, best)
  }

  /** The reduction finds the one available key that is preferred to every other. */
  lemma {:induction false} BestIsPreferred(states: seq<KeyState>, now: int, i: nat, best: Option<nat>)
    requires i <= |states| && (best.Some? ==> best.value < i && Available(states[best.value], now))
    requires forall j :: 0 <= j < i && Available(states[j], now) ==>
               best.Some? && (j == best.value || Preferred(states, best.value, j))
    ensures var r := Best(states, now, i, best);
            && (r.Some? ==> Available(states[r.value], now))
            && (forall j :: 0 <= j < |states| && Available(states[j], now) ==>
                  r.Some? && (j == r.value || Preferred(states, r.value, j)))
    decreases |states| - i
  {
    if i < |states| {
      if !Available(states[i], now) {
        BestIsPreferred(states, now, i + 1, best);
      } else if best.None? || Preferred(states, i, best.value) {
        BestIsPreferred(states, now, i + 1, Some(i));
      } else {
        BestIsPreferred(states, now, i + 1, best);
      }
    }
  }

  // ---- Round robin ----

  /** Steps from the cursor forward around the list to position `i`. */
  function Dist(rr: nat, i: nat, n: nat): nat
    requires rr < n && i < n
  {
    if i >= rr then i - rr else i + n - rr
  }

  lemma Apart(rr: nat, i: nat, j: nat, n: nat)
    requires rr < n && i < n && j < n
    ensures Dist(rr, i, n) < n && (Dist(rr, i, n) == Dist(rr, j, n) <==> i == j)
  {
  }

  lemma MulMonotone(n: nat, a: int, b: int)
    ensures a <= b ==> n * a <= n * b
  {
  }

  lemma ModOnce(x: nat, n: nat)
    requires 0 < n && x < 2 * n
    ensures x % n == if x < n then x else x - n
  {
    if x >= n {
      var q, r := x / n, x % n;
      assert x == n * q + r;
      MulMonotone(n, q, 0);
      MulMonotone(n, 2, q);
    }
  }

  lemma Wrap(rr: nat, i: nat, n: nat)
    requires rr < n && i < n
    ensures (rr + i) % n == if rr + i < n then rr + i else rr + i - n
    ensures Dist(rr, (rr + i) % n, n) == i
  {
    ModOnce(rr + i, n);
  }

  function NextFrom(states: seq<KeyState>, now: int, rr: nat, i: nat): (r: Option<nat>)
    requires rr < |states| && i <= |states|
    ensures r.Some? ==> r.value < |states| && Available(states[r.value], now)
    decreases |states| - i
  {
    if i == |states| then None
    else
      var idx := (rr + i) % |states|;
      if Available(states[idx], now) then Some(idx) else NextFrom(states, now, rr, i + 1)
  }

  /** The walk finds the available key nearest after the cursor. */
  lemma {:induction false} NextIsNearest(states: seq<KeyState>, now: int, rr: nat, i: nat)
    requires rr < |states| && i <= |states|
    requires forall j :: 0 <= j < |states| && Dist(rr, j, |states|) < i ==> !Available(states[j], now)
    ensures var r := NextFrom(states, now, rr, i);
            forall j :: 0 <= j < |states| && Available(states[j], now) ==>
              r.Some? && Dist(rr, r.value, |states|) <= Dist(rr, j, |states|)
    decreases |states| - i
  {
    if i < |states| {
      Wrap(rr, i, |states|);
      var idx := (rr + i) % |states|;
      if !Available(states[idx], now) { NextIsNearest(states, now, rr, i + 1); }
    }
  }

  // ---- The operations ----

  function Choice(p: Pool, now: int): (r: Option<nat>)
    requires p.Valid()
    ensures r.Some? ==> r.value < |p.states|
  {
    if p.cursor == RoundRobin then NextFrom(p.states, now, p.rrIndex, 0) else Best(p.states, now, 0, None)
  }

  /** `pick`: the pool afterwards, or unchanged when every key is rotated or cooling down. */
  function Picked(p: Pool, now: int): (q: Pool)
    requires p.Valid()
    ensures q.Valid()
  {
    match Choice(p, now)
    case None => p
    case Some(c) =>
      var s := p.states[c];
      var used := s.(usageCount := s.usageCount + 1, lastUsedAt := now);
      Pool(p.states[c := used], p.cursor, p.cooldownMs,
           if p.cursor == RoundRobin then (c + 1) % |p.states| else p.rrIndex)
  }

  function FindKey(states: seq<KeyState>, key: string): (r: Option<nat>)
    ensures r.Some? ==> r.value < |states| && states[r.value].key == key
    ensures r.None? ==> forall i :: 0 <= i < |states| ==> states[i].key != key
  {
    if states == [] then None
    else if states[0].key == key then Some(0)
    else match FindKey(states[1..], key) case None => None case Some(i) => Some(i + 1)
  }

  function Rotated(p: Pool, key: string, status: int, now: int): Pool {
    match FindKey(p.states, key)
    case None => p
    case Some(i) =>
      if status == 401 || status == 403
      then p.(states := p.states[i := p.states[i].(rotated := true, cooldownUntil := now + p.cooldownMs)])
      else p
  }

  function Cleared(p: Pool, key: string): Pool {
    match FindKey(p.states, key)
    case None => p
    case Some(i) => p.(states := p.states[i := p.states[i].(rotated := false, cooldownUntil := 0)])
  }

  /** A pick succeeds exactly when some key is usable, and then picks a usable one. */
  lemma PickUsable(p: Pool, now: int)
    requires p.Valid()
    ensures Choice(p, now).Some? <==> exists i :: 0 <= i < |p.states| && Available(p.states[i], now)
    ensures Choice(p, now).Some? ==> Available(p.states[Choice(p, now).value], now)
  {
    BestIsPreferred(p.states, now, 0, None);
    NextIsNearest(p.states, now, p.rrIndex, 0);
  }

  // ---- Runs ----

  datatype Op = Pick(now: int) | MarkRotated(key: string, status: int, now: int) | ClearRotation(key: string)

  function Step(p: Pool, op: Op): (q: Pool)
    requires p.Valid()
    ensures q.Valid() && |q.states| == |p.states| && q.cursor == p.cursor
    ensures forall i :: 0 <= i < |p.states| ==> q.states[i].key == p.states[i].key
  {
    match op
    case Pick(now) => Picked(p, now)
    case MarkRotated(key, status, now) => Rotated(p, key, status, now)
    case ClearRotation(key) => Cleared(p, key)
  }

  function After(p: Pool, ops: seq<Op>): (q: Pool)
    requires p.Valid()
    ensures q.Valid() && |q.states| == |p.states|
    decreases |ops|
  {
    if ops == [] then p else After(Step(p, ops[0]), ops[1..])
  }

  /** The positions picked in a run, in order. */
  function Picks(p: Pool, ops: seq<Op>): (cs: seq<nat>)
    requires p.Valid()
    ensures forall i :: 0 <= i < |cs| ==> cs[i] < |p.states|
    decreases |ops|
  {
    if ops == [] then []
    else
      var here := if ops[0].Pick? && Choice(p, ops[0].now).Some? then [Choice(p, ops[0].now).value] else [];
      here + Picks(Step(p, ops[0]), ops[1..])
  }

  // ---- Least used is fair ----

  /** The keys in `ids` were never rotated, and their usage counts differ by at most one. */
  predicate Even(p: Pool, ids: set<nat>) {
    && (forall i :: i in ids ==> i < |p.states| && !p.states[i].rotated && p.states[i].cooldownUntil == 0)
    && (forall i, j :: i in ids && j in ids ==> p.states[i].usageCount <= p.states[j].usageCount + 1)
  }

  /** The operation rotates none of the keys in `ids`: another status, an unknown key or a key found elsewhere. */
  predicate Spares(op: Op, p: Pool, ids: set<nat>)
    requires forall i :: i in ids ==> i < |p.states|
  {
    match op
    case Pick(now) => now >= 0
    case MarkRotated(key, status, _) =>
      status == 401 || status == 403 ==> forall i :: i in ids ==> FindKey(p.states, key) != Some(i)
    case ClearRotation(_) => true
  }

  lemma EvenStep(p: Pool, op: Op, ids: set<nat>)
    requires p.Valid() && p.cursor == LeastUsed && Even(p, ids) && Spares(op, p, ids)
    ensures Even(Step(p, op), ids)
  {
    match op
    case Pick(now) =>
      BestIsPreferred(p.states, now, 0, None);
      assert forall i :: i in ids ==> Available(p.states[i], now);
    case MarkRotated(key, status, now) =>
    case ClearRotation(key) =>
  }

  /** Where a key is found depends on the keys alone. */
  lemma {:induction false} FindKeyFixed(states: seq<KeyState>, others: seq<KeyState>, key: string)
    requires |states| == |others| && forall i :: 0 <= i < |states| ==> states[i].key == others[i].key
    ensures FindKey(states, key) == FindKey(others, key)
  {
    if states != [] { FindKeyFixed(states[1..], others[1..], key); }
  }

  /** Under `least_used` the keys never rotated in a run stay within one use of each other. */
  lemma {:induction false} LeastUsedFair(p: Pool, ops: seq<Op>, ids: set<nat>)
    requires p.Valid() && p.cursor == LeastUsed && Even(p, ids)
    requires forall k :: 0 <= k < |ops| ==> Spares(ops[k], p, ids)
    ensures Even(After(p, ops), ids)
    decreases |ops|
  {
    if ops != [] {
      EvenStep(p, ops[0], ids);
      var q := Step(p, ops[0]);
      forall k | 0 <= k < |ops| - 1 ensures Spares(ops[1..][k], q, ids) {
        assert Spares(ops[k + 1], p, ids);
        if ops[k + 1].MarkRotated? { FindKeyFixed(p.states, q.states, ops[k + 1].key); }
      }
      LeastUsedFair(q, ops[1..], ids);
    }
  }

  // ---- A rotated key is never picked until it is cleared ----

  lemma {:induction false} RotatedNeverPicked(p: Pool, ops: seq<Op>, i: nat)
    requires p.Valid() && i < |p.states| && p.states[i].rotated
    requires forall k :: 0 <= k < |ops| ==> ops[k] != ClearRotation(p.states[i].key)
    ensures i !in Picks(p, ops)
    decreases |ops|
  {
    if ops != [] {
      if ops[0].Pick? { PickUsable(p, ops[0].now); }
      var q := Step(p, ops[0]);
      assert q.states[i].rotated;
      assert forall k :: 0 <= k < |ops| - 1 ==> ops[1..][k] == ops[k + 1];
      RotatedNeverPicked(q, ops[1..], i);
    }
  }

  // ---- Round robin is fair ----

  function Count(cs: seq<nat>, q: nat): nat {
    if cs == [] then 0 else (if cs[0] == q then 1 else 0) + Count(cs[1..], q)
  }

  /** `q` is usable at every pick of the run. */
  predicate AlwaysUsable(p: Pool, ops: seq<Op>, q: nat)
    requires p.Valid() && q < |p.states|
    decreases |ops|
  {
    ops == [] || ((ops[0].Pick? ==> Available(p.states[q], ops[0].now)) && AlwaysUsable(Step(p, ops[0]), ops[1..], q))
  }

  /** Some key usable at this time lies at or before `k` on the walk from the cursor. */
  predicate Reached(p: Pool, now: int, k: nat)
    requires p.Valid() && k < |p.states|
  {
    exists j :: 0 <= j < |p.states| && Available(p.states[j], now) &&
                Dist(p.rrIndex, j, |p.states|) <= Dist(p.rrIndex, k, |p.states|)
  }

  /** No pick of the run walks past `k`: at each of them the walk ends at `k` or before it. */
  predicate NeverPassed(p: Pool, ops: seq<Op>, k: nat)
    requires p.Valid() && k < |p.states|
    decreases |ops|
  {
    ops == [] || ((ops[0].Pick? ==> Reached(p, ops[0].now, k)) && NeverPassed(Step(p, ops[0]), ops[1..], k))
  }

  lemma RoundRobinStep(p: Pool, now: int, q: nat)
    requires p.Valid() && p.cursor == RoundRobin && q < |p.states| && Available(p.states[q], now)
    ensures Choice(p, now).Some?
    ensures var c, n := Choice(p, now).value, |p.states|;
            && Dist(p.rrIndex, c, n) <= Dist(p.rrIndex, q, n)
            && (forall x :: 0 <= x < n && Dist(p.rrIndex, c, n) < Dist(p.rrIndex, x, n) ==>
                  Dist(Picked(p, now).rrIndex, x, n) == Dist(p.rrIndex, x, n) - Dist(p.rrIndex, c, n) - 1)
            && (forall x :: 0 <= x < n && Dist(p.rrIndex, x, n) <= Dist(p.rrIndex, c, n) ==>
                  Dist(Picked(p, now).rrIndex, x, n) == n + Dist(p.rrIndex, x, n) - Dist(p.rrIndex, c, n) - 1)
  {
    NextIsNearest(p.states, now, p.rrIndex, 0);
    hide NextFrom, Available;
    var c, n := Choice(p, now).value, |p.states|;
    ModOnce(c + 1, n);
  }

  /** The pick does not walk past `k` exactly when it takes `k` or a key before it. */
  lemma ReachedByChoice(p: Pool, now: int, k: nat)
    requires p.Valid() && p.cursor == RoundRobin && k < |p.states|
    ensures Reached(p, now, k) <==>
            Choice(p, now).Some? && Dist(p.rrIndex, Choice(p, now).value, |p.states|) <= Dist(p.rrIndex, k, |p.states|)
  {
    PickUsable(p, now);
    NextIsNearest(p.states, now, p.rrIndex, 0);
    hide NextFrom, Available, Dist;
  }

  lemma {:induction false} UsableNotPassed(p: Pool, ops: seq<Op>, k: nat)
    requires p.Valid() && k < |p.states| && AlwaysUsable(p, ops, k)
    ensures NeverPassed(p, ops, k)
    decreases |ops|
  {
    if ops != [] {
      hide Dist;
      if ops[0].Pick? { assert Reached(p, ops[0].now, k); }
      UsableNotPassed(Step(p, ops[0]), ops[1..], k);
    }
  }

  /** Where some key is always usable, a run that picks nothing passes nothing. */
  lemma {:induction false} NothingPicked(p: Pool, ops: seq<Op>, k: nat, q: nat)
    requires p.Valid() && k < |p.states| && q < |p.states| && AlwaysUsable(p, ops, q) && Picks(p, ops) == []
    ensures NeverPassed(p, ops, k)
    decreases |ops|
  {
    if ops != [] {
      if ops[0].Pick? { PickUsable(p, ops[0].now); }
      NothingPicked(Step(p, ops[0]), ops[1..], k, q);
    }
  }

  /**
   A run whose only pick of `k` is its last one, with `q` usable throughout. From a cursor that reaches
   `q` before `k` it picks `q`, and only once exactly if no pick walks past `k`; from a cursor that
   reaches `k` first it does not pick `q` at all exactly if no pick walks past `k`.
   */
  lemma {:induction false} BetweenPicks(p: Pool, ops: seq<Op>, k: nat, q: nat, mid: seq<nat>)
    requires p.Valid() && p.cursor == RoundRobin && k < |p.states| && q < |p.states| && q != k
    requires Picks(p, ops) == mid + [k] && k !in mid && AlwaysUsable(p, ops, q)
    ensures Dist(p.rrIndex, q, |p.states|) < Dist(p.rrIndex, k, |p.states|) ==>
              Count(mid, q) >= 1 && (Count(mid, q) == 1 <==> NeverPassed(p, ops, k))
    ensures Dist(p.rrIndex, k, |p.states|) < Dist(p.rrIndex, q, |p.states|) ==>
              (Count(mid, q) == 0 <==> NeverPassed(p, ops, k))
    decreases |ops|
  {
    if ops != [] {
      hide Available, Choice, Reached, Dist, Picked, Rotated, Cleared;
      var n := |p.states|;
      var next := Step(p, ops[0]);
      if ops[0].Pick? {
        RoundRobinStep(p, ops[0].now, q);
        ReachedByChoice(p, ops[0].now, k);
        var c := Choice(p, ops[0].now).value;
        Apart(p.rrIndex, c, k, n);
        Apart(p.rrIndex, c, q, n);
        assert Picks(p, ops)[0] == c && Picks(p, ops)[1..] == Picks(next, ops[1..]);
        if mid == [] {
          NothingPicked(next, ops[1..], k, q);
        } else {
          assert (mid + [k])[1..] == mid[1..] + [k] && mid[0] == c;
          BetweenPicks(next, ops[1..], k, q, mid[1..]);
        }
      } else {
        assert Picks(p, ops) == Picks(next, ops[1..]);
        BetweenPicks(next, ops[1..], k, q, mid);
      }
    }
  }

  /**
   Round robin: between two successive picks of `k`, every other key that is usable throughout is
   picked at least once, and exactly once if and only if no pick in between walks past `k`; so
   exactly once when `k` is usable throughout as well.
   */
  lemma RoundRobinFair(p: Pool, now: int, ops: seq<Op>, k: nat, q: nat, mid: seq<nat>)
    requires p.Valid() && p.cursor == RoundRobin && Choice(p, now) == Some(k) && q < |p.states| && q != k
    requires var after := Picked(p, now);
             Picks(after, ops) == mid + [k] && k !in mid && AlwaysUsable(after, ops, q)
    ensures Count(mid, q) >= 1
    ensures Count(mid, q) == 1 <==> NeverPassed(Picked(p, now), ops, k)
    ensures AlwaysUsable(Picked(p, now), ops, k) ==> Count(mid, q) == 1
  {
    PickUsable(p, now);
    RoundRobinStep(p, now, k);
    hide Picks, AlwaysUsable, NeverPassed, Count;
    BetweenPicks(Picked(p, now), ops, k, q, mid);
    if AlwaysUsable(Picked(p, now), ops, k) { UsableNotPassed(Picked(p, now), ops, k); }
  }

  /** When `k` itself is rotated and cleared between its picks, another key is picked twice. */
  lemma RotationBreaksExactlyOnce()
    ensures var p := NewPool(["a", "b"], RoundRobin, 10);
            var ops := [MarkRotated("a", 401, 0), Pick(0), Pick(0), ClearRotation("a"), Pick(0)];
            Choice(p, 0) == Some(0) && Picks(Picked(p, 0), ops) == [1, 1, 0]
  {
    hide Best, Preferred;
    var p := NewPool(["a", "b"], RoundRobin, 10);
    assert 1 % 2 == 1 && 2 % 2 == 0;
    var a, b := KeyState("a", 0, 0, false, 0), KeyState("b", 0, 0, false, 0);
    assert p.states == [a, b];
    var used, out := KeyState("a", 1, 0, false, 0), KeyState("a", 1, 0, true, 10);
    var p1 := Pool([used, b], RoundRobin, 10, 1);
    assert Choice(p, 0) == Some(0) && Picked(p, 0) == p1;
    var p2 := Pool([out, b], RoundRobin, 10, 1);
    assert Rotated(p1, "a", 401, 0) == p2;
    var p3 := Pool([out, KeyState("b", 1, 0, false, 0)], RoundRobin, 10, 0);
    assert Choice(p2, 0) == Some(1) && Picked(p2, 0) == p3;
    PicksAfterRotation();
    var tail := [Pick(0), ClearRotation("a"), Pick(0)];
    assert ([Pick(0)] + tail)[1..] == tail;
    assert Picks(p2, [Pick(0)] + tail) == [1] + [1, 0];
    assert ([MarkRotated("a", 401, 0)] + ([Pick(0)] + tail))[1..] == [Pick(0)] + tail;
    assert [MarkRotated("a", 401, 0)] + ([Pick(0)] + tail) ==
           [MarkRotated("a", 401, 0), Pick(0), Pick(0), ClearRotation("a"), Pick(0)];
  }

  lemma PicksAfterRotation()
    ensures Picks(Pool([KeyState("a", 1, 0, true, 10), KeyState("b", 1, 0, false, 0)], RoundRobin, 10, 0),
                  [Pick(0), ClearRotation("a"), Pick(0)]) == [1, 0]
  {
    hide Best, Preferred;
    assert 1 % 2 == 1 && 2 % 2 == 0 && 0 % 2 == 0;
    var out, back := KeyState("a", 1, 0, true, 10), KeyState("a", 1, 0, false, 0);
    var b1, b2 := KeyState("b", 1, 0, false, 0), KeyState("b", 2, 0, false, 0);
    var p3, p4, p5 := Pool([out, b1], RoundRobin, 10, 0), Pool([out, b2], RoundRobin, 10, 0), Pool([back, b2], RoundRobin, 10, 0);
    assert NextFrom(p3.states, 0, 0, 0) == NextFrom(p3.states, 0, 0, 1) == Some(1);
    assert Choice(p3, 0) == Some(1) && Picked(p3, 0) == p4;
    assert Cleared(p4, "a") == p5 && Choice(p5, 0) == Some(0);
    assert [Pick(0)][1..] == [] && [ClearRotation("a"), Pick(0)][1..] == [Pick(0)];
    assert Picks(p5, [Pick(0)]) == [0] + Picks(Picked(p5, 0), []) == [0];
    assert Picks(p4, [ClearRotation("a"), Pick(0)]) == [0];
    assert [Pick(0), ClearRotation("a"), Pick(0)][1..] == [ClearRotation("a"), Pick(0)];
  }

  // ---- The pool itself ----

  datatype PickResult = Key(key: string) | Exhausted(total: nat, rotated: nat, cooling: nat)

  function CountRotated(states: seq<KeyState>): nat {
    if states == [] then 0 else (if states[0].rotated then 1 else 0) + CountRotated(states[1..])
  }

  function CountCooling(states: seq<KeyState>, now: int): nat {
    if states == [] then 0
    else (if !states[0].rotated && states[0].cooldownUntil > now then 1 else 0) + CountCooling(states[1..], now)
  }

  function CountUsable(states: seq<KeyState>, now: int): nat {
    if states == [] then 0 else (if Available(states[0], now) then 1 else 0) + CountUsable(states[1..], now)
  }

  /** Every key is rotated, cooling down or usable, so an exhausted pool accounts for all its keys. */
  lemma {:induction false} CountsAddUp(states: seq<KeyState>, now: int)
    ensures CountRotated(states) + CountCooling(states, now) + CountUsable(states, now) == |states|
    ensures CountUsable(states, now) == 0 <==> forall i :: 0 <= i < |states| ==> !Available(states[i], now)
  {
    if states != [] {
      CountsAddUp(states[1..], now);
      assert forall i :: 1 <= i < |states| ==> states[i] == states[1..][i - 1];
    }
  }

  class ProviderKeyPool {
    var states: seq<KeyState>
    const cursor: Cursor
    const cooldownMs: int
    var rrIndex: nat

    ghost function St(): Pool
      reads this
    {
      Pool(states, cursor, cooldownMs, rrIndex)
    }

    /** The source refuses an empty key list by throwing, so there is no pool without keys. */
    constructor (keys: seq<string>, cursor: Cursor, cooldownMs: int)
      requires |keys| > 0
      ensures St() == NewPool(keys, cursor, cooldownMs) && St().Valid()
    {
      states := seq(|keys|, i requires 0 <= i < |keys| => KeyState(keys[i], 0, 0, false, 0));
      this.cursor, this.cooldownMs, rrIndex := cursor, cooldownMs, 0;
    }

    method Pick(now: int) returns (r: PickResult)
      requires St().Valid()
      modifies this
      ensures St() == Picked(old(St()), now)
      ensures match Choice(old(St()), now)
              case Some(c) => r == Key(old(states)[c].key)
              case None =>
                && r == Exhausted(|states|, CountRotated(states), CountCooling(states, now))
                && r.rotated + r.cooling == r.total && states == old(states)
    {
      var usable := ActiveCount(now);
      CountsAddUp(states, now);
      PickUsable(St(), now);
      if usable == 0 {
        return Exhausted(|states|, CountRotated(states), CountCooling(states, now));
      }
      var chosen: nat;
      if cursor == RoundRobin {
        var picked := WalkFrom(now);
        chosen := picked.value;
        rrIndex := (chosen + 1) % |states|;
      } else {
        chosen := Reduce(now);
      }
      var s := states[chosen];
      states := states[chosen := s.(usageCount := s.usageCount + 1, lastUsedAt := now)];
      return Key(s.key);
    }

    /** Walk the list from the round-robin cursor and stop at the first usable key. */
    method WalkFrom(now: int) returns (r: Option<nat>)
      requires St().Valid()
      ensures r == NextFrom(states, now, rrIndex, 0)
    {
      var i := 0;
      while i < |states|
        invariant 0 <= i <= |states|
        invariant NextFrom(states, now, rrIndex, 0) == NextFrom(states, now, rrIndex, i)
      {
        var idx := (rrIndex + i) % |states|;
        if Available(states[idx], now) { return Some(idx); }
        i := i + 1;
      }
      return None;
    }

    /** Reduce the usable keys to the preferred one. */
    method Reduce(now: int) returns (idx: nat)
      requires Best(states, now, 0, None).Some?
      ensures Best(states, now, 0, None) == Some(idx)
    {
      var best: Option<nat> := None;
      var i := 0;
      while i < |states|
        invariant 0 <= i <= |states| && (best.Some? ==> best.value < |states|)
        invariant Best(states, now, 0, None) == Best(states, now, i, best)
      {
        if Available(states[i], now) && (best.None? || Preferred(states, i, best.value)) {
          best := Some(i);
        }
        i := i + 1;
      }
      idx := best.value;
    }

    method ActiveCount(now: int) returns (n: nat)
      ensures n == CountUsable(states, now)
    {
      n := 0;
      var i := 0;
      assert states[0..] == states;
      while i < |states|
        invariant 0 <= i <= |states|
        invariant n + CountUsable(states[i..], now) == CountUsable(states, now)
      {
        assert states[i..][1..] == states[i + 1..];
        if Available(states[i], now) { n := n + 1; }
        i := i + 1;
      }
    }

    method MarkRotated(key: string, statusCode: int, now: int)
      requires St().Valid()
      modifies this`states
      ensures St() == Rotated(old(St()), key, statusCode, now)
    {
      match FindKey(states, key) {
        case None =>
        case Some(i) =>
          if statusCode == 401 || statusCode == 403 {
            states := states[i := states[i].(rotated := true, cooldownUntil := now + cooldownMs)];
          }
      }
    }

    method ClearRotation(key: string)
      requires St().Valid()
      modifies this`states
      ensures St() == Cleared(old(St()), key)
    {
      match FindKey(states, key) {
        case None =>
        case Some(i) => states := states[i := states[i].(rotated := false, cooldownUntil := 0)];
      }
    }
  }
}
