/**
 What the idempotency store (packages/gateway/src/index.ts:963-1092) answers about a key, told from the calls alone:
 a ledger of one key's two expiry times, without maps, insertion order or sweeps.
 */
module IdempotencyLedger {
  import opened Options
  import opened InsertionMap
  import opened IdempotencyStore

  /** When the key's entry and its poison run out, if it has them. */
  datatype Record = Record(entry: Option<int>, poison: Option<int>)

  const NO_RECORD := Record(None, None)

  function RecordOf(s: Store, k: string): Record {
    Record(if s.entries.Has(k) then Some(s.entries.vals[k]) else None,
           if s.poisoned.Has(k) then Some(s.poisoned.vals[k]) else None)
  }

  predicate Runs(expiry: Option<int>, now: int) { expiry.Some? && now < expiry.value }

  function Unexpired(r: Record, now: int): Record {
    Record(if Runs(r.entry, now) then r.entry else None, if Runs(r.poison, now) then r.poison else None)
  }

  /** What a call at this time makes of the record of `k`, and the answer if it asks for `k`. */
  function Entered(r: Record, op: Op, now: int, k: string): (Record, Answer) {
    match op
    case OpClaim(key, ttl) =>
      var live := Unexpired(r, now);
      if key != k then (live, Done)
      else if live.poison.Some? then (live, Poisoned)
      else if live.entry.Some? then (live, Duplicate)
      else (Record(Some(now + ttl), None), Fresh)
    case OpMark(key, ttl) =>
      var live := Unexpired(r, now);
      if key != k then (live, Done)
      else if live.poison.Some? || live.entry.Some? then (live, Duplicate)
      else (Record(Some(now + ttl), None), Fresh)
    case OpPoison(key, ttl) =>
      if key != k then (r, Done) else (Record(if r.entry.Some? then Some(now + ttl) else None, Some(now + ttl)), Done)
    case OpUnmark(key) => (if key != k then r else Record(None, r.poison), Done)
    case OpHas(key) =>
      if key != k then (r, Done)
      else (Record(if Runs(r.entry, now) then r.entry else None, r.poison), if Runs(r.entry, now) then Present else Absent)
    case OpIsPoisoned(key) =>
      if key != k then (r, Done)
      else (Record(r.entry, if Runs(r.poison, now) then r.poison else None), if Runs(r.poison, now) then Present else Absent)
  }

  /** Does the prune of this call evict `k`? */
  predicate Evicts(s: Store, op: Op, now: int, maxEntries: nat, k: string) {
    (op.OpClaim? || op.OpMark?) && Live(s.entries, k, now) && Behind(Swept(s, now).entries.keys, k) >= maxEntries
  }

  /** A prune drops what has expired, and both parts of the record when it evicts the key. */
  lemma PrunedRecord(s: Store, now: int, maxEntries: nat, k: string)
    requires Ok(s)
    ensures Ok(Pruned(s, now, maxEntries))
    ensures RecordOf(Pruned(s, now, maxEntries), k) ==
            if Evicts(s, OpClaim(k, 0), now, maxEntries, k) then NO_RECORD else Unexpired(RecordOf(s, k), now)
  {
    hide Pruned, Swept, Behind;
    PruneExact(s, now, maxEntries, k);
    PruneKeeps(s, now, maxEntries, k);
    if Live(s.entries, k, now) {
      PoisonGoesToo(s, now, maxEntries, k);
      if Live(s.poisoned, k, now) { PoisonStays(s, now, maxEntries, k); }
    }
  }

  /** The poison of a key whose entry survives a prune survives it too. */
  lemma PoisonStays(s: Store, now: int, maxEntries: nat, k: string)
    requires Ok(s) && Live(s.poisoned, k, now)
    ensures var r := Pruned(s, now, maxEntries); r.entries.Has(k) ==> r.poisoned.Has(k)
  {
    hide Evict, Sweep, Elements, Later;
    var t := Swept(s, now);
    SweepKeeps(s.entries, s.entries.keys, now, k);
    SweepKeeps(s.poisoned, s.poisoned.keys, now, k);
    if t.entries.Size() > maxEntries {
      var n := t.entries.Size() - maxEntries;
      EvictDrops(t, n, k);
      EvictedKeys(t, n, k);
      KeysHave(t.entries, k);
    }
  }

  ghost predicate StepFits(s: Store, op: Op, now: int, maxEntries: nat, k: string) {
    var (t, answer) := Step(s, op, now, maxEntries);
    var before := if Evicts(s, op, now, maxEntries, k) then NO_RECORD else RecordOf(s, k);
    var (after, said) := Entered(before, op, now, k);
    Ok(t) && RecordOf(t, k) == after && (op.key == k ==> answer == said)
  }

  /** Every call makes of the key's record what the ledger says, or of no record if it evicts the key. */
  lemma StepRecord(s: Store, op: Op, now: int, maxEntries: nat, k: string)
    requires Ok(s)
    ensures StepFits(s, op, now, maxEntries, k)
  {
    hide *;
    match op
    case OpClaim(key, ttl) => ClaimFits(s, op, now, maxEntries, k);
    case OpMark(key, ttl) => MarkFits(s, op, now, maxEntries, k);
    case OpPoison(key, ttl) => PoisonFits(s, op, now, maxEntries, k);
    case OpUnmark(key) => UnmarkFits(s, op, now, maxEntries, k);
    case OpHas(key) => HasFits(s, op, now, maxEntries, k);
    case OpIsPoisoned(key) => IsPoisonedFits(s, op, now, maxEntries, k);
  }

  lemma ClaimFits(s: Store, op: Op, now: int, maxEntries: nat, k: string)
    requires Ok(s) && op.OpClaim?
    ensures StepFits(s, op, now, maxEntries, k)
  {
    ClaimRecord(s, op.key, op.ttl, now, maxEntries, k);
    hide Claimed, RecordOf, Behind, Swept, Ok, Entered, Evicts;
  }

  lemma MarkFits(s: Store, op: Op, now: int, maxEntries: nat, k: string)
    requires Ok(s) && op.OpMark?
    ensures StepFits(s, op, now, maxEntries, k)
  {
    MarkIsClaim(s, op.key, op.ttl, now, maxEntries);
    ClaimRecord(s, op.key, op.ttl, now, maxEntries, k);
    hide Claimed, Marked, RecordOf, Behind, Swept, Ok;
  }

  lemma PoisonFits(s: Store, op: Op, now: int, maxEntries: nat, k: string)
    requires Ok(s) && op.OpPoison?
    ensures StepFits(s, op, now, maxEntries, k)
  {
    PoisonRecord(s, op.key, op.ttl, now, k);
    hide Poison, RecordOf, Ok, Behind, Swept;
  }

  lemma PoisonRecord(s: Store, key: string, ttl: int, now: int, k: string)
    requires Ok(s)
    ensures var t := Poison(s, key, ttl, now);
            Ok(t) && RecordOf(t, k) ==
                     if key != k then RecordOf(s, k)
                     else Record(if RecordOf(s, k).entry.Some? then Some(now + ttl) else None, Some(now + ttl))
  {
    SetValid(s.entries, key, now + ttl);
    SetValid(s.poisoned, key, now + ttl);
    hide Elements, Distinct;
  }

  lemma UnmarkFits(s: Store, op: Op, now: int, maxEntries: nat, k: string)
    requires Ok(s) && op.OpUnmark?
    ensures StepFits(s, op, now, maxEntries, k)
  {
    DeleteValid(s.entries, op.key);
    hide Behind, Swept, Removed, Elements, Distinct;
  }

  lemma HasFits(s: Store, op: Op, now: int, maxEntries: nat, k: string)
    requires Ok(s) && op.OpHas?
    ensures StepFits(s, op, now, maxEntries, k)
  {
    DeleteValid(s.entries, op.key);
    hide Behind, Swept, Removed, Elements, Distinct;
  }

  lemma IsPoisonedFits(s: Store, op: Op, now: int, maxEntries: nat, k: string)
    requires Ok(s) && op.OpIsPoisoned?
    ensures StepFits(s, op, now, maxEntries, k)
  {
    DeleteValid(s.poisoned, op.key);
    hide Behind, Swept, Removed, Elements, Distinct;
  }

  lemma ClaimRecord(s: Store, key: string, ttl: int, now: int, maxEntries: nat, k: string)
    requires Ok(s)
    ensures var (t, answer) := Claimed(s, key, ttl, now, maxEntries);
            var before := if Evicts(s, OpClaim(key, ttl), now, maxEntries, k) then NO_RECORD else RecordOf(s, k);
            var (after, said) := Entered(before, OpClaim(key, ttl), now, k);
            Ok(t) && RecordOf(t, k) == after && (key == k ==> answer == said)
  {
    PrunedRecord(s, now, maxEntries, k);
    PrunedRecord(s, now, maxEntries, key);
    PruneKeeps(s, now, maxEntries, key);
    var p := Pruned(s, now, maxEntries);
    InsertOk(p, key, now + ttl);
    InsertRecord(p, key, now + ttl, k);
    hide Pruned, Behind, Swept, Inserted, Ok;
  }

  lemma InsertRecord(s: Store, key: string, expiresAt: int, k: string)
    ensures RecordOf(Inserted(s, key, expiresAt), k) ==
            if key == k then Record(Some(expiresAt), RecordOf(s, k).poison) else RecordOf(s, k)
  {
    hide Removed;
  }

  // ---- Whole runs ----

  /** The answers that the calls for `k` get in a run. */
  function AnswersFor(s: Store, ops: seq<Timed>, maxEntries: nat, k: string): seq<Answer>
    decreases |ops|
  {
    if ops == [] then []
    else
      var (t, answer) := Step(s, ops[0].0, ops[0].1, maxEntries);
      (if ops[0].0.key == k then [answer] else []) + AnswersFor(t, ops[1..], maxEntries, k)
  }

  /** The answers that the ledger gives. */
  function LedgerAnswers(r: Record, ops: seq<Timed>, k: string): seq<Answer>
    decreases |ops|
  {
    if ops == [] then []
    else
      var (after, said) := Entered(r, ops[0].0, ops[0].1, k);
      (if ops[0].0.key == k then [said] else []) + LedgerAnswers(after, ops[1..], k)
  }

  /** The keys that a run asks to record. */
  function AskedKeys(ops: seq<Timed>): set<string> {
    set i | 0 <= i < |ops| && (ops[i].0.OpClaim? || ops[i].0.OpMark?) :: ops[i].0.key
  }

  lemma KeysWithin(s: Store, op: Op, now: int, maxEntries: nat)
    requires Ok(s)
    ensures var t := Step(s, op, now, maxEntries).0;
            Ok(t) && forall k :: t.entries.Has(k) ==> s.entries.Has(k) || ((op.OpClaim? || op.OpMark?) && k == op.key)
  {
    hide Step, Behind, Swept;
    StepRecord(s, op, now, maxEntries, op.key);
    forall k
      ensures Step(s, op, now, maxEntries).0.entries.Has(k) ==> s.entries.Has(k) || ((op.OpClaim? || op.OpMark?) && k == op.key)
    {
      StepRecord(s, op, now, maxEntries, k);
    }
  }

  lemma NothingEvicted(s: Store, op: Op, now: int, maxEntries: nat, k: string, room: set<string>)
    requires Ok(s) && (forall x :: s.entries.Has(x) ==> x in room) && |room| <= maxEntries
    ensures !Evicts(s, op, now, maxEntries, k)
  {
    hide Sweep;
    var keys := Swept(s, now).entries.keys;
    SweepKeeps(s.entries, s.entries.keys, now, k);
    if Live(s.entries, k, now) {
      var t := Swept(s, now).entries;
      KeysHave(t, k);
      BehindBounded(keys, k);
      forall x | x in keys ensures x in room {
        SweepKeeps(s.entries, s.entries.keys, now, x);
        KeysHave(t, x);
      }
      DistinctFit(keys, room);
    }
  }

  /**
   In every run with room for all recorded and asked keys, the answers about a key are those of its ledger: they
   depend on the calls and their times alone.
   */
  lemma {:induction false} AnswersAreLedgers(s: Store, ops: seq<Timed>, maxEntries: nat, k: string, room: set<string>)
    requires Ok(s) && (forall x :: s.entries.Has(x) ==> x in room) && AskedKeys(ops) <= room && |room| <= maxEntries
    ensures AnswersFor(s, ops, maxEntries, k) == LedgerAnswers(RecordOf(s, k), ops, k)
    decreases |ops|
  {
    if ops != [] {
      hide Step, Evicts, Entered, RecordOf;
      var op, now := ops[0].0, ops[0].1;
      var t := Step(s, op, now, maxEntries).0;
      NothingEvicted(s, op, now, maxEntries, k, room);
      StepRecord(s, op, now, maxEntries, k);
      KeysWithin(s, op, now, maxEntries);
      assert op.OpClaim? || op.OpMark? ==> op.key in AskedKeys(ops);
      assert AskedKeys(ops[1..]) <= AskedKeys(ops) by {
        forall x | x in AskedKeys(ops[1..]) ensures x in AskedKeys(ops) {
          var i :| 0 <= i < |ops[1..]| && (ops[1..][i].0.OpClaim? || ops[1..][i].0.OpMark?) && ops[1..][i].0.key == x;
          assert ops[i + 1] == ops[1..][i];
        }
      }
      AnswersAreLedgers(t, ops[1..], maxEntries, k, room);
    }
  }

  // ---- What one call sets for the next ----

  /**
   A fresh claim blocks its key exactly until its time runs out, unmarking frees exactly what no poison blocks, and
   the two questions are answered accordingly.
   */
  lemma CallsSetAnswers(s: Store, k: string, ttl: int, now: int, later: int, maxEntries: nat)
    requires Ok(s) && maxEntries > 0
    ensures var (t, answer) := Claimed(s, k, ttl, now, maxEntries);
            answer == Fresh ==>
              && (Lookup(t.entries, k, later).1 <==> later < now + ttl) && !Lookup(t.poisoned, k, later).1
              && Claimed(t, k, ttl, later, maxEntries).1 == (if later < now + ttl then Duplicate else Fresh)
    ensures var u := Unmarked(s, k);
            && !Lookup(u.entries, k, later).1
            && Claimed(u, k, ttl, later, maxEntries).1 == (if Lookup(s.poisoned, k, later).1 then Poisoned else Fresh)
  {
    hide Pruned, Behind, Swept, Inserted, Removed, Claimed, Later;
    StepRecord(s, OpClaim(k, ttl), now, maxEntries, k);
    var (t, answer) := Claimed(s, k, ttl, now, maxEntries);
    if answer == Fresh {
      FreshNotEvicted(s, k, ttl, now, later, maxEntries);
      StepRecord(t, OpClaim(k, ttl), later, maxEntries, k);
    }
    DeleteValid(s.entries, k);
    StepRecord(Unmarked(s, k), OpClaim(k, ttl), later, maxEntries, k);
  }

  /** A key just recorded is the newest. */
  lemma FreshNotEvicted(s: Store, k: string, ttl: int, now: int, later: int, maxEntries: nat)
    requires Ok(s) && maxEntries > 0 && Claimed(s, k, ttl, now, maxEntries).1 == Fresh
    ensures !Evicts(Claimed(s, k, ttl, now, maxEntries).0, OpClaim(k, ttl), later, maxEntries, k)
  {
    hide Sweep, Claimed, Later;
    var t := Claimed(s, k, ttl, now, maxEntries).0;
    FreshIsHeld(s, k, ttl, now, maxEntries);
    SweepKeeps(t.entries, t.entries.keys, later, k);
    if Live(t.entries, k, later) {
      NothingIn(Swept(t, later).entries.keys, t.entries.keys, k);
    }
  }

  lemma NothingIn(keys: seq<string>, more: seq<string>, k: string)
    requires Elements(Later(keys, k)) <= Elements(Later(more, k)) <= {}
    ensures Behind(keys, k) == 0
  {
    FirstIn(Later(keys, k));
  }

  lemma FirstIn(keys: seq<string>)
    ensures keys != [] ==> keys[0] in Elements(keys)
  {
  }
}
