/**
 What a key pool holds after any history of calls (packages/gateway/src/credential-pool.ts:66-175), told from the calls
 and the keys that were handed out, and which key a pick takes.
 */
module KeyHistory {
  import opened Options
  import opened KeyPool

  // ---- Which key is taken ----

  /** Neither taken out of rotation nor cooling down. */
  predicate CanServe(s: KeyState, now: int) { !s.rotated && s.cooldownUntil <= now }

  /** Fewest uses, among those the longest idle, among those the first in the list. */
  predicate LeastUsedKey(states: seq<KeyState>, now: int, c: nat) {
    c < |states| && CanServe(states[c], now) &&
    forall j :: 0 <= j < |states| && j != c && CanServe(states[j], now) ==>
      || states[c].usageCount < states[j].usageCount
      || (states[c].usageCount == states[j].usageCount && states[c].lastUsedAt < states[j].lastUsedAt)
      || (states[c].usageCount == states[j].usageCount && states[c].lastUsedAt == states[j].lastUsedAt && c < j)
  }

  /** The first key that can serve from the cursor on, around the list. */
  predicate NextKey(states: seq<KeyState>, now: int, cursor: nat, c: nat) {
    c < |states| && CanServe(states[c], now) &&
    forall j :: 0 <= j < |states| && CanServe(states[j], now) ==>
      // from the cursor to the end of the list, then from its beginning
      if c >= cursor then j < cursor || c <= j else j < cursor && c <= j
  }

  /** A pick takes the least used key or the next one, and none only when no key can serve. */
  lemma ChoiceExactly(p: Pool, now: int)
    requires p.Valid()
    ensures match Choice(p, now)
            case None => forall j :: 0 <= j < |p.states| ==> !CanServe(p.states[j], now)
            case Some(c) =>
              if p.cursor == RoundRobin then NextKey(p.states, now, p.rrIndex, c) else LeastUsedKey(p.states, now, c)
  {
    ServesAvailable(p.states, now);
    PickUsable(p, now);
    if p.cursor == RoundRobin {
      NextIsNearest(p.states, now, p.rrIndex, 0);
      hide NextFrom, Available;
    } else {
      BestIsPreferred(p.states, now, 0, None);
      hide Best, Available;
    }
  }

  lemma ServesAvailable(states: seq<KeyState>, now: int)
    ensures forall j :: 0 <= j < |states| ==> (CanServe(states[j], now) <==> Available(states[j], now))
  {
  }

  /** Behind a round-robin pick the cursor stands at the next place of the list, behind a least-used one where it stood. */
  lemma CursorMoves(p: Pool, now: int)
    requires p.Valid() && Choice(p, now).Some?
    ensures var c := Choice(p, now).value;
            Picked(p, now).rrIndex ==
            if p.cursor == LeastUsed then p.rrIndex else if c == |p.states| - 1 then 0 else c + 1
  {
    hide NextFrom, Best;
    ModOnce(Choice(p, now).value + 1, |p.states|);
  }

  // ---- What a history leaves of a key ----

  /** The key's first place in the list: only there it is ever found. */
  predicate FirstPlace(p: Pool, i: nat) {
    i < |p.states| && forall j :: 0 <= j < i ==> p.states[j].key != p.states[i].key
  }

  /** Does the call take the key out of rotation? */
  predicate TakesOut(op: Op, key: string) {
    op.MarkRotated? && op.key == key && (op.status == 401 || op.status == 403)
  }

  /** The last call that takes the key out, if no clearing followed it. */
  function OutSince(ops: seq<Op>, key: string): (r: Option<nat>)
    ensures r.Some? ==> r.value < |ops| && TakesOut(ops[r.value], key)
    ensures r.Some? ==> forall k :: r.value < k < |ops| ==> !TakesOut(ops[k], key) && ops[k] != ClearRotation(key)
    ensures r.None? ==> forall k :: 0 <= k < |ops| && TakesOut(ops[k], key) ==>
                          exists m :: k < m < |ops| && ops[m] == ClearRotation(key)
  {
    if ops == [] then None
    else
      var op := ops[|ops| - 1];
      if TakesOut(op, key) then Some(|ops| - 1)
      else if op == ClearRotation(key) then None
      else OutSince(ops[..|ops| - 1], key)
  }

  /** Call number `k` of the history is a pick that takes this key. */
  predicate Takes(p: Pool, ops: seq<Op>, i: nat, k: nat)
    requires p.Valid() && k < |ops|
  {
    ops[k].Pick? && Choice(After(p, ops[..k]), ops[k].now) == Some(i)
  }

  lemma {:induction false} FoundFirst(states: seq<KeyState>, key: string)
    ensures match FindKey(states, key)
            case None => forall j :: 0 <= j < |states| ==> states[j].key != key
            case Some(i) => states[i].key == key && forall j :: 0 <= j < i ==> states[j].key != key
  {
    if states != [] { FoundFirst(states[1..], key); }
  }

  lemma {:induction false} KeysStay(p: Pool, ops: seq<Op>)
    requires p.Valid()
    ensures var q := After(p, ops);
            && q.cooldownMs == p.cooldownMs && q.cursor == p.cursor
            && forall j :: 0 <= j < |p.states| ==> q.states[j].key == p.states[j].key
    decreases |ops|
  {
    if ops != [] { KeysStay(Step(p, ops[0]), ops[1..]); }
  }

  lemma {:induction false} AfterLast(p: Pool, ops: seq<Op>)
    requires p.Valid() && ops != []
    ensures var front, op := ops[..|ops| - 1], ops[|ops| - 1];
            && After(p, ops) == Step(After(p, front), op)
            && Picks(p, ops) == Picks(p, front) +
               (if op.Pick? && Choice(After(p, front), op.now).Some? then [Choice(After(p, front), op.now).value] else [])
    decreases |ops|
  {
    hide Choice, Step;
    if |ops| == 1 {
      assert ops[..0] == [] && ops[1..] == [];
      assert Picks(Step(p, ops[0]), ops[1..]) == [];
    } else {
      AfterLast(Step(p, ops[0]), ops[1..]);
      assert ops[1..][..|ops| - 2] == ops[..|ops| - 1][1..] && ops[1..][|ops| - 2] == ops[|ops| - 1];
      assert ops[..|ops| - 1][0] == ops[0];
    }
  }

  lemma {:induction false} CountLast(cs: seq<nat>, c: nat, i: nat)
    ensures Count(cs + [c], i) == Count(cs, i) + if c == i then 1 else 0
  {
    if cs == [] {
      assert [] + [c] == [c] && [c][1..] == [];
    } else {
      CountLast(cs[1..], c, i);
      assert (cs + [c])[1..] == cs[1..] + [c];
    }
  }

  /** A pick adds a use to the key taken, at its time; a 401 or 403 takes the first key of its name out; a clearing undoes it. */
  lemma StepOnKey(q: Pool, op: Op, i: nat)
    requires q.Valid() && i < |q.states|
    ensures var s, t := q.states[i], Step(q, op).states[i];
            match op
            case Pick(now) =>
              if Choice(q, now) == Some(i) then t == s.(usageCount := s.usageCount + 1, lastUsedAt := now) else t == s
            case MarkRotated(key, status, now) =>
              if FirstPlace(q, i) && TakesOut(op, s.key) then t == s.(rotated := true, cooldownUntil := now + q.cooldownMs)
              else t == s
            case ClearRotation(key) =>
              if FirstPlace(q, i) && key == s.key then t == s.(rotated := false, cooldownUntil := 0) else t == s
  {
    hide Choice;
    if op.MarkRotated? || op.ClearRotation? { FoundFirst(q.states, op.key); }
  }

  lemma {:induction false} UsesAfter(p: Pool, ops: seq<Op>, i: nat)
    requires p.Valid() && i < |p.states|
    ensures After(p, ops).states[i].usageCount == p.states[i].usageCount + Count(Picks(p, ops), i)
    decreases |ops|
  {
    hide Choice, Step;
    if ops != [] {
      var front, op := ops[..|ops| - 1], ops[|ops| - 1];
      UsesAfter(p, front, i);
      AfterLast(p, ops);
      var q := After(p, front);
      StepOnKey(q, op, i);
      if op.Pick? && Choice(q, op.now).Some? { CountLast(Picks(p, front), Choice(q, op.now).value, i); }
      assert Picks(p, front) + [] == Picks(p, front);
    }
  }

  /** The time of the last pick that took the key, if one did. */
  ghost predicate LastFits(p: Pool, ops: seq<Op>, i: nat)
    requires p.Valid() && i < |p.states|
  {
    var last := After(p, ops).states[i].lastUsedAt;
    && ((forall k :: 0 <= k < |ops| ==> !Takes(p, ops, i, k)) ==> last == p.states[i].lastUsedAt)
    && forall k :: 0 <= k < |ops| && Takes(p, ops, i, k) && (forall m :: k < m < |ops| ==> !Takes(p, ops, i, m)) ==>
         last == ops[k].now
  }

  lemma {:induction false} LastAfter(p: Pool, ops: seq<Op>, i: nat)
    requires p.Valid() && i < |p.states|
    ensures LastFits(p, ops, i)
    decreases |ops|
  {
    hide Choice, Step;
    if ops != [] {
      var front, op := ops[..|ops| - 1], ops[|ops| - 1];
      LastAfter(p, front, i);
      AfterLast(p, ops);
      var q := After(p, front);
      StepOnKey(q, op, i);
      TakesFront(p, ops, i);
      hide Takes, TakesOut, FirstPlace, Picks;
    }
  }

  lemma TakesFront(p: Pool, ops: seq<Op>, i: nat)
    requires p.Valid() && ops != []
    ensures var front, op := ops[..|ops| - 1], ops[|ops| - 1];
            && (forall k :: 0 <= k < |front| ==> front[k] == ops[k] && (Takes(p, front, i, k) <==> Takes(p, ops, i, k)))
            && (Takes(p, ops, i, |ops| - 1) <==> op.Pick? && Choice(After(p, front), op.now) == Some(i))
  {
    hide Choice, Step, After;
    var front := ops[..|ops| - 1];
    forall k | 0 <= k < |front| ensures front[k] == ops[k] && (Takes(p, front, i, k) <==> Takes(p, ops, i, k)) {
      assert front[..k] == ops[..k];
    }
  }

  lemma {:induction false} OutAfter(p: Pool, ops: seq<Op>, i: nat)
    requires p.Valid() && i < |p.states| && !p.states[i].rotated && p.states[i].cooldownUntil == 0
    ensures var s, t := p.states[i], After(p, ops).states[i];
            && t.key == s.key
            && (if FirstPlace(p, i) && OutSince(ops, s.key).Some? then
                  t.rotated && t.cooldownUntil == ops[OutSince(ops, s.key).value].now + p.cooldownMs
                else !t.rotated && t.cooldownUntil == 0)
    decreases |ops|
  {
    hide Choice, Step, Picks;
    if ops != [] {
      var front, op := ops[..|ops| - 1], ops[|ops| - 1];
      OutAfter(p, front, i);
      KeysStay(p, front);
      AfterLast(p, ops);
      StepOnKey(After(p, front), op, i);
    }
  }

  /**
   What any history of calls leaves of a key that starts in rotation: as many more uses as picks took it, the time of
   the last one, and out of rotation exactly if a call took it out that no clearing followed, with the cooldown
   counted from the last such call. A key that repeats an earlier one is never taken out.
   */
  lemma KeyAfter(p: Pool, ops: seq<Op>, i: nat)
    requires p.Valid() && i < |p.states| && !p.states[i].rotated && p.states[i].cooldownUntil == 0
    ensures var s, t := p.states[i], After(p, ops).states[i];
            && t.key == s.key && t.usageCount == s.usageCount + Count(Picks(p, ops), i) && LastFits(p, ops, i)
            && (if FirstPlace(p, i) && OutSince(ops, s.key).Some? then
                  t.rotated && t.cooldownUntil == ops[OutSince(ops, s.key).value].now + p.cooldownMs
                else !t.rotated && t.cooldownUntil == 0)
  {
    hide After, Picks, LastFits, FirstPlace;
    UsesAfter(p, ops, i);
    LastAfter(p, ops, i);
    OutAfter(p, ops, i);
  }

  // ---- What an exhausted pool reports ----

  function RotatedFrom(states: seq<KeyState>, from: nat): set<nat> {
    set j: nat | from <= j < |states| && states[j].rotated
  }

  function CoolingFrom(states: seq<KeyState>, now: int, from: nat): set<nat> {
    set j: nat | from <= j < |states| && !states[j].rotated && states[j].cooldownUntil > now
  }

  /** The numbers that an exhausted pool reports: how many keys are out of rotation, and how many others cool down. */
  lemma CountsAre(states: seq<KeyState>, now: int)
    ensures CountRotated(states) == |RotatedFrom(states, 0)| && CountCooling(states, now) == |CoolingFrom(states, now, 0)|
  {
    RotatedCount(states, 0);
    CoolingCount(states, now, 0);
    assert states[0..] == states;
  }

  lemma {:induction false} RotatedCount(states: seq<KeyState>, from: nat)
    requires from <= |states|
    ensures CountRotated(states[from..]) == |RotatedFrom(states, from)|
    decreases |states| - from
  {
    if from == |states| {
      assert RotatedFrom(states, from) == {};
    } else {
      RotatedCount(states, from + 1);
      assert states[from..][1..] == states[from + 1..];
      assert RotatedFrom(states, from) == RotatedFrom(states, from + 1) + (if states[from].rotated then {from} else {});
    }
  }

  lemma {:induction false} CoolingCount(states: seq<KeyState>, now: int, from: nat)
    requires from <= |states|
    ensures CountCooling(states[from..], now) == |CoolingFrom(states, now, from)|
    decreases |states| - from
  {
    if from == |states| {
      assert CoolingFrom(states, now, from) == {};
    } else {
      CoolingCount(states, now, from + 1);
      assert states[from..][1..] == states[from + 1..];
      var s := states[from];
      assert CoolingFrom(states, now, from) ==
             CoolingFrom(states, now, from + 1) + (if !s.rotated && s.cooldownUntil > now then {from} else {});
    }
  }
}
