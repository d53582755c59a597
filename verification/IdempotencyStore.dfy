/**
 The gateway's in-memory idempotency store (`InMemoryGatewayIdempotencyStore`,
 packages/gateway/src/index.ts:963-1092). The clock is a parameter of every call.

 The class updates its two maps in place and is proved against the functions below; the guarantees
 (no second fresh claim, poison outlives an unmark, bounded size) are proved over whole runs.
 */
module IdempotencyStore {
  import opened InsertionMap

  type Entries = Map<string, int>  // key -> expiresAt

  datatype Store = Store(entries: Entries, poisoned: Entries)
  datatype Answer = Fresh | Duplicate | Poisoned | Absent | Present | Done

  ghost predicate Ok(s: Store) {
    s.entries.Valid() && s.poisoned.Valid()
  }

  predicate Live(m: Entries, key: string, now: int) {
    m.Has(key) && m.vals[key] > now
  }

  /** One sweep over the listed keys: the expired ones are deleted. */
  function Sweep(m: Entries, keys: seq<string>, now: int): Entries
    decreases |keys|
  {
    if keys == [] then m
    else Sweep(if m.Has(keys[0]) && m.vals[keys[0]] <= now then m.Delete(keys[0]) else m, keys[1..], now)
  }

  /** The listed keys leave both maps. */
  function Evict(s: Store, keys: seq<string>): Store
    decreases |keys|
  {
    if keys == [] then s
    else Evict(Store(s.entries.Delete(keys[0]), s.poisoned.Delete(keys[0])), keys[1..])
  }

  function Swept(s: Store, now: int): Store {
    Store(Sweep(s.entries, s.entries.keys, now), Sweep(s.poisoned, s.poisoned.keys, now))
  }

  /** `prune`: expired entries and poison markers first, then the oldest entries beyond the cap. */
  function Pruned(s: Store, now: int, maxEntries: nat): Store {
    var t := Swept(s, now);
    if t.entries.Size() > maxEntries then Evict(t, t.entries.keys[..t.entries.Size() - maxEntries]) else t
  }

  function Inserted(s: Store, key: string, expiresAt: int): Store {
    s.(entries := (if s.entries.Has(key) then s.entries.Delete(key) else s.entries).Set(key, expiresAt))
  }

  function Claimed(s: Store, key: string, ttl: int, now: int, maxEntries: nat): (Store, Answer) {
    var t := Pruned(s, now, maxEntries);
    if Live(t.poisoned, key, now) then (t, Poisoned)
    else if Live(t.entries, key, now) then (t, Duplicate)
    else (Inserted(t, key, now + ttl), Fresh)
  }

  function Marked(s: Store, key: string, ttl: int, now: int, maxEntries: nat): (Store, bool) {
    var t := Pruned(s, now, maxEntries);
    if Live(t.entries, key, now) then (t, false)
    else if Live(t.poisoned, key, now) then (t, false)
    else (Inserted(t, key, now + ttl), true)
  }

  function Poison(s: Store, key: string, ttl: int, now: int): Store {
    Store(if s.entries.Has(key) then s.entries.Set(key, now + ttl) else s.entries, s.poisoned.Set(key, now + ttl))
  }

  function Unmarked(s: Store, key: string): Store {
    s.(entries := s.entries.Delete(key))
  }

  /** `has` and `isPoisoned` drop a stale marker on the way. */
  function Lookup(m: Entries, key: string, now: int): (Entries, bool) {
    if !m.Has(key) then (m, false)
    else if m.vals[key] <= now then (m.Delete(key), false)
    else (m, true)
  }

  datatype Op =
    | OpClaim(key: string, ttl: int)
    | OpMark(key: string, ttl: int)
    | OpPoison(key: string, ttl: int)
    | OpUnmark(key: string)
    | OpHas(key: string)
    | OpIsPoisoned(key: string)

  function Step(s: Store, op: Op, now: int, maxEntries: nat): (Store, Answer) {
    match op
    case OpClaim(key, ttl) => Claimed(s, key, ttl, now, maxEntries)
    case OpMark(key, ttl) =>
      var (t, ok) := Marked(s, key, ttl, now, maxEntries);
      (t, if ok then Fresh else Duplicate)
    case OpPoison(key, ttl) => (Poison(s, key, ttl, now), Done)
    case OpUnmark(key) => (Unmarked(s, key), Done)
    case OpHas(key) =>
      var (m, b) := Lookup(s.entries, key, now);
      (s.(entries := m), if b then Present else Absent)
    case OpIsPoisoned(key) =>
      var (m, b) := Lookup(s.poisoned, key, now);
      (s.(poisoned := m), if b then Present else Absent)
  }

  // ---- Pruning ----

  lemma {:induction false} SweepKeeps(m: Entries, keys: seq<string>, now: int, k: string)
    requires m.Valid()
    ensures var r := Sweep(m, keys, now);
            && r.Valid() && r.Size() <= m.Size()
            && (r.Has(k) ==> m.Has(k) && r.vals[k] == m.vals[k])
            && (Live(m, k, now) ==> r.Has(k) && Elements(Later(r.keys, k)) <= Elements(Later(m.keys, k)))
            && (k in keys && r.Has(k) ==> r.vals[k] > now)
    decreases |keys|
  {
    if keys != [] {
      if m.Has(keys[0]) && m.vals[keys[0]] <= now {
        DeleteValid(m, keys[0]);
        if Live(m, k, now) { LaterRemoved(m.keys, k, keys[0]); }
        SweepKeeps(m.Delete(keys[0]), keys[1..], now, k);
        var r := Sweep(m, keys, now);
        assert keys[0] == k ==> !m.Delete(k).Has(k);
      } else {
        SweepKeeps(m, keys[1..], now, k);
      }
    }
  }

  /** Evicting the first `n` keys leaves exactly the others, in order, and no value changes. */
  lemma {:induction false} EvictDrops(s: Store, n: nat, k: string)
    requires Ok(s) && n <= s.entries.Size()
    ensures var r := Evict(s, s.entries.keys[..n]);
            && Ok(r)
            && r.entries.keys == s.entries.keys[n..]
            && (r.entries.Has(k) ==> s.entries.Has(k) && r.entries.vals[k] == s.entries.vals[k])
            && (r.poisoned.Has(k) <==> s.poisoned.Has(k) && k !in s.entries.keys[..n])
            && (r.poisoned.Has(k) ==> r.poisoned.vals[k] == s.poisoned.vals[k])
    decreases n
  {
    if n > 0 {
      var first := s.entries.keys[0];
      DeleteValid(s.entries, first);
      DeleteValid(s.poisoned, first);
      var t := Store(s.entries.Delete(first), s.poisoned.Delete(first));
      RemovedHead(s.entries.keys);
      assert s.entries.keys[..n] == [first] + t.entries.keys[..n - 1];
      EvictDrops(t, n - 1, k);
      assert t.entries.keys[n - 1..] == s.entries.keys[n..];
    }
  }

  lemma RemovedHead(keys: seq<string>)
    requires keys != [] && Distinct(keys)
    ensures Removed(keys, keys[0]) == keys[1..]
  {
    RemovedNothing(keys[1..], keys[0]);
  }

  lemma {:induction false} RemovedNothing(keys: seq<string>, k: string)
    requires k !in keys
    ensures Removed(keys, k) == keys
  {
    if keys != [] { RemovedNothing(keys[1..], k); }
  }

  /** What one prune does to one key. */
  lemma PruneKeeps(s: Store, now: int, maxEntries: nat, k: string)
    requires Ok(s)
    ensures var r := Pruned(s, now, maxEntries);
            && Ok(r) && r.entries.Size() <= maxEntries
            && (r.entries.Has(k) ==> Live(s.entries, k, now) && r.entries.vals[k] == s.entries.vals[k])
            && (r.poisoned.Has(k) ==> Live(s.poisoned, k, now) && r.poisoned.vals[k] == s.poisoned.vals[k])
            && (Live(s.entries, k, now) && Behind(s.entries.keys, k) < maxEntries ==>
                  r.entries.Has(k) && Elements(Later(r.entries.keys, k)) <= Elements(Later(s.entries.keys, k)))
            && (Live(s.poisoned, k, now) && !Live(s.entries, k, now) ==> r.poisoned.Has(k))
  {
    hide Sweep, Evict, Later, Distinct, Elements;
    var t := Swept(s, now);
    SweepKeeps(s.entries, s.entries.keys, now, k);
    SweepKeeps(s.poisoned, s.poisoned.keys, now, k);
    KeysHave(s.entries, k);
    KeysHave(s.poisoned, k);
    KeysHave(t.entries, k);
    var size := t.entries.Size();
    if size > maxEntries {
      var n := size - maxEntries;
      EvictDrops(t, n, k);
      var r := Evict(t, t.entries.keys[..n]);
      KeysHave(r.entries, k);
      assert !t.entries.Has(k) ==> k !in t.entries.keys[..n];
      if Live(s.entries, k, now) && Behind(s.entries.keys, k) < maxEntries {
        FewerBehind(t.entries.keys, s.entries.keys, k);
        LaterDropped(t.entries.keys, k, n);
      }
    }
  }

  lemma KeysHave(m: Entries, k: string)
    requires m.Valid()
    ensures m.Has(k) <==> k in m.keys
    ensures Distinct(m.keys)
  {
    assert k in Elements(m.keys) <==> k in m.keys;
  }

  lemma FewerBehind(keys: seq<string>, more: seq<string>, k: string)
    requires Distinct(keys) && Elements(Later(keys, k)) <= Elements(Later(more, k))
    ensures Behind(keys, k) <= Behind(more, k)
  {
    LaterDistinct(keys, k);
    DistinctFit(Later(keys, k), Elements(Later(more, k)));
    ElementsCount(Later(more, k));
  }

  lemma {:induction false} ElementsCount(s: seq<string>)
    ensures |Elements(s)| <= |s|
  {
    if s != [] {
      ElementsCount(s[1..]);
      assert Elements(s) == {s[0]} + Elements(s[1..]);
    }
  }

  lemma InsertOk(s: Store, key: string, expiresAt: int)
    requires Ok(s)
    ensures Ok(Inserted(s, key, expiresAt)) && Inserted(s, key, expiresAt).entries.Size() <= s.entries.Size() + 1
    ensures forall k :: k in s.entries.vals && k != key ==> Inserted(s, key, expiresAt).entries.Has(k)
    ensures Inserted(s, key, expiresAt).entries.Has(key)
  {
    DeleteValid(s.entries, key);
    var d := if s.entries.Has(key) then s.entries.Delete(key) else s.entries;
    SetValid(d, key, expiresAt);
  }

  /** An entry survives a prune exactly when it is live and fewer than `maxEntries` live keys are behind it. */
  lemma PruneExact(s: Store, now: int, maxEntries: nat, k: string)
    requires Ok(s)
    ensures Pruned(s, now, maxEntries).entries.Has(k) <==>
            Live(s.entries, k, now) && Behind(Swept(s, now).entries.keys, k) < maxEntries
  {
    hide Evict, Sweep, Distinct;
    var t := Swept(s, now);
    SweepKeeps(s.entries, s.entries.keys, now, k);
    SweepKeeps(s.poisoned, s.poisoned.keys, now, k);
    var size := t.entries.Size();
    if t.entries.Has(k) { BehindBounded(t.entries.keys, k); }
    if size > maxEntries {
      var n := size - maxEntries;
      EvictedKeys(t, n, k);
      if t.entries.Has(k) {
        if Behind(t.entries.keys, k) < maxEntries {
          LaterDropped(t.entries.keys, k, n);
        } else {
          BehindGone(t.entries.keys, k, n);
        }
      }
    }
  }

  lemma EvictedKeys(t: Store, n: nat, k: string)
    requires Ok(t) && n <= t.entries.Size()
    ensures Evict(t, t.entries.keys[..n]).entries.Has(k) <==> k in t.entries.keys[n..]
    ensures k in t.entries.keys[n..] ==> t.entries.Has(k)
  {
    EvictDrops(t, n, k);
    var r := Evict(t, t.entries.keys[..n]);
    assert r.entries.Has(k) <==> k in r.entries.keys;
  }

  // ---- One claim decides, two ways to ask ----

  /** `markIfAbsent` says true exactly when `claim` would say fresh, and leaves the same store. */
  lemma MarkIsClaim(s: Store, key: string, ttl: int, now: int, maxEntries: nat)
    ensures var (a, ok) := Marked(s, key, ttl, now, maxEntries);
            var (b, answer) := Claimed(s, key, ttl, now, maxEntries);
            a == b && (ok <==> answer == Fresh)
  {
  }

  // ---- Runs ----

  type Timed = (Op, int)

  function After(s: Store, ops: seq<Timed>, maxEntries: nat): Store
    decreases |ops|
  {
    if ops == [] then s else After(Step(s, ops[0].0, ops[0].1, maxEntries).0, ops[1..], maxEntries)
  }

  /** The keys that were newly recorded in a run. */
  function NewKeys(s: Store, ops: seq<Timed>, maxEntries: nat): set<string>
    decreases |ops|
  {
    if ops == [] then {}
    else
      var (t, answer) := Step(s, ops[0].0, ops[0].1, maxEntries);
      (if answer == Fresh then {ops[0].0.key} else {}) + NewKeys(t, ops[1..], maxEntries)
  }

  /** Does some later claim or mark of `k` succeed as if `k` were new? */
  predicate GrantedAgain(s: Store, ops: seq<Timed>, k: string, maxEntries: nat)
    decreases |ops|
  {
    ops != [] &&
    var (t, answer) := Step(s, ops[0].0, ops[0].1, maxEntries);
    (answer == Fresh && ops[0].0.key == k) || GrantedAgain(t, ops[1..], k, maxEntries)
  }

  /** Nothing in the run takes `k` away before `expiry`: no unmark, no poison that ends sooner, no time past it. */
  predicate Undisturbed(ops: seq<Timed>, k: string, expiry: int) {
    forall i :: 0 <= i < |ops| ==> LeavesAlone(ops[i].0, ops[i].1, k, expiry)
  }

  predicate LeavesAlone(op: Op, now: int, k: string, expiry: int) {
    now < expiry && op != OpUnmark(k) && (op.OpPoison? && op.key == k ==> now + op.ttl >= expiry)
  }

  /** `k` is recorded until `expiry` at least, and every key behind it is one of `others`. */
  ghost predicate Held(s: Store, k: string, expiry: int, others: set<string>) {
    Ok(s) && s.entries.Has(k) && s.entries.vals[k] >= expiry && Elements(Later(s.entries.keys, k)) <= others
  }

  /** The keys behind `k` once the answer is given. */
  function Joined(others: set<string>, key: string, answer: Answer): set<string> {
    if answer == Fresh then others + {key} else others
  }

  lemma HeldBehind(s: Store, k: string, expiry: int, others: set<string>)
    requires Held(s, k, expiry, others)
    ensures Behind(s.entries.keys, k) <= |others|
  {
    LaterDistinct(s.entries.keys, k);
    DistinctFit(Later(s.entries.keys, k), others);
  }

  lemma InsertHeld(s: Store, key: string, expiresAt: int, k: string, expiry: int, others: set<string>)
    requires Held(s, k, expiry, others) && key != k
    ensures Held(Inserted(s, key, expiresAt), k, expiry, others + {key})
  {
    DeleteValid(s.entries, key);
    LaterRemoved(s.entries.keys, k, key);
    RemovedIn(s.entries.keys, key, k);
    RemovedIn(s.entries.keys, key, key);
    var d := if s.entries.Has(key) then s.entries.Delete(key) else s.entries;
    SetValid(d, key, expiresAt);
    LaterAppended(d.keys, k, key);
    assert Elements(Later(d.keys, k) + [key]) == Elements(Later(d.keys, k)) + {key};
  }

  lemma HeldClaim(s: Store, key: string, ttl: int, now: int, maxEntries: nat, k: string, expiry: int, others: set<string>)
    requires Held(s, k, expiry, others) && |others| < maxEntries && now < expiry
    ensures var (t, answer) := Claimed(s, key, ttl, now, maxEntries);
            !(answer == Fresh && key == k) && Held(t, k, expiry, Joined(others, key, answer))
  {
    hide Pruned, Inserted, Elements, Later;
    HeldBehind(s, k, expiry, others);
    PruneKeeps(s, now, maxEntries, k);
    var t := Pruned(s, now, maxEntries);
    if key != k { InsertHeld(t, key, now + ttl, k, expiry, others); }
  }

  lemma HeldStep(s: Store, op: Op, now: int, maxEntries: nat, k: string, expiry: int, others: set<string>)
    requires Held(s, k, expiry, others) && |others| < maxEntries && LeavesAlone(op, now, k, expiry)
    ensures var (t, answer) := Step(s, op, now, maxEntries);
            !(answer == Fresh && op.key == k) && Held(t, k, expiry, Joined(others, op.key, answer))
  {
    hide Pruned, Inserted, Claimed, Marked, Removed, Elements, Distinct, Later;
    match op
    case OpClaim(key, ttl) => HeldClaim(s, key, ttl, now, maxEntries, k, expiry, others);
    case OpMark(key, ttl) =>
      MarkIsClaim(s, key, ttl, now, maxEntries);
      HeldClaim(s, key, ttl, now, maxEntries, k, expiry, others);
    case OpPoison(key, ttl) =>
      SetValid(s.entries, key, now + ttl);
      SetValid(s.poisoned, key, now + ttl);
    case OpUnmark(key) =>
      DeleteValid(s.entries, key);
      LaterRemoved(s.entries.keys, k, key);
    case OpHas(key) =>
      DeleteValid(s.entries, key);
      if key != k { LaterRemoved(s.entries.keys, k, key); }
    case OpIsPoisoned(key) => DeleteValid(s.poisoned, key);
  }

  lemma {:induction false} HeldRun(s: Store, ops: seq<Timed>, maxEntries: nat, k: string, expiry: int, others: set<string>)
    requires Held(s, k, expiry, others) && Undisturbed(ops, k, expiry)
    requires |others + NewKeys(s, ops, maxEntries)| < maxEntries
    ensures !GrantedAgain(s, ops, k, maxEntries)
    decreases |ops|
  {
    if ops != [] {
      hide Step, Held, LeavesAlone;
      var (t, answer) := Step(s, ops[0].0, ops[0].1, maxEntries);
      var joined := Joined(others, ops[0].0.key, answer);
      SubsetFits(others, others + NewKeys(s, ops, maxEntries));
      HeldStep(s, ops[0].0, ops[0].1, maxEntries, k, expiry, others);
      assert joined + NewKeys(t, ops[1..], maxEntries) == others + NewKeys(s, ops, maxEntries);
      HeldRun(t, ops[1..], maxEntries, k, expiry, joined);
    }
  }

  lemma SubsetFits(a: set<string>, b: set<string>)
    requires a <= b
    ensures |a| <= |b|
  {
    assert b == a + (b - a);
  }

  /** A fresh claim records its key behind all others. */
  lemma FreshIsHeld(s: Store, k: string, ttl: int, now: int, maxEntries: nat)
    requires Ok(s) && Claimed(s, k, ttl, now, maxEntries).1 == Fresh
    ensures Held(Claimed(s, k, ttl, now, maxEntries).0, k, now + ttl, {})
  {
    hide Pruned, Later, Removed, Distinct;
    PruneKeeps(s, now, maxEntries, k);
    var p := Pruned(s, now, maxEntries);
    InsertOk(p, k, now + ttl);
    DeleteValid(p.entries, k);
    RemovedIn(p.entries.keys, k, k);
    LaterLast(if p.entries.Has(k) then p.entries.Delete(k).keys else p.entries.keys, k);
  }

  /**
   After a fresh claim no later claim or mark of the same key is fresh before the entry expires, in
   any run that neither unmarks it nor poisons it for a shorter time, while fewer than `maxEntries`
   different keys were newly recorded since, however often each of them was.
   */
  lemma NoSecondGrant(s: Store, k: string, ttl: int, now: int, ops: seq<Timed>, maxEntries: nat)
    requires Ok(s)
    requires Claimed(s, k, ttl, now, maxEntries).1 == Fresh
    requires var t := Claimed(s, k, ttl, now, maxEntries).0;
             Undisturbed(ops, k, now + ttl) && |NewKeys(t, ops, maxEntries)| < maxEntries
    ensures !GrantedAgain(Claimed(s, k, ttl, now, maxEntries).0, ops, k, maxEntries)
  {
    hide Claimed, Undisturbed, NewKeys, GrantedAgain, Held;
    FreshIsHeld(s, k, ttl, now, maxEntries);
    var t := Claimed(s, k, ttl, now, maxEntries).0;
    assert {} + NewKeys(t, ops, maxEntries) == NewKeys(t, ops, maxEntries);
    HeldRun(t, ops, maxEntries, k, now + ttl, {});
  }

  /**
   Exactly when a claim is fresh: a live entry blocks it unless `maxEntries` live keys are behind it,
   which drops its poison too; without a live entry only a live poison marker blocks it.
   */
  lemma FreshExactly(s: Store, k: string, ttl: int, now: int, maxEntries: nat)
    requires Ok(s)
    ensures Claimed(s, k, ttl, now, maxEntries).1 == Fresh <==>
            if Live(s.entries, k, now) then Behind(Swept(s, now).entries.keys, k) >= maxEntries
            else !Live(s.poisoned, k, now)
  {
    hide Pruned, Swept, Behind, Inserted;
    PruneExact(s, now, maxEntries, k);
    PruneKeeps(s, now, maxEntries, k);
    if Live(s.entries, k, now) { PoisonGoesToo(s, now, maxEntries, k); }
  }

  /** A live entry that a prune evicts takes its poison marker along. */
  lemma PoisonGoesToo(s: Store, now: int, maxEntries: nat, k: string)
    requires Ok(s) && Live(s.entries, k, now)
    ensures var r := Pruned(s, now, maxEntries); !r.entries.Has(k) ==> !r.poisoned.Has(k)
  {
    hide Evict, Sweep, Distinct, Elements, Later;
    var t := Swept(s, now);
    SweepKeeps(s.entries, s.entries.keys, now, k);
    SweepKeeps(s.poisoned, s.poisoned.keys, now, k);
    if t.entries.Size() > maxEntries {
      var n := t.entries.Size() - maxEntries;
      KeysHave(t.entries, k);
      EvictDrops(t, n, k);
      EvictedKeys(t, n, k);
      assert t.entries.keys == t.entries.keys[..n] + t.entries.keys[n..];
    }
  }

  /** Poisoning for a shorter time than the claim frees the key early. */
  lemma ShortPoisonFreesEarly()
    ensures var (a, first) := Claimed(Store(EmptyMap(), EmptyMap()), "m", 100, 0, 10);
            first == Fresh && Claimed(Poison(a, "m", 1, 0), "m", 100, 1, 10).1 == Fresh
  {
    var empty := Store(EmptyMap(), EmptyMap());
    assert empty.entries.keys == [] && empty.poisoned.keys == [];
    var a := Claimed(empty, "m", 100, 0, 10).0;
    assert a.entries.keys == ["m"] && a.entries.vals["m"] == 100;
    var b := Poison(a, "m", 1, 0);
    assert b.entries.keys == ["m"] && b.entries.vals["m"] == 1;
    assert b.entries.keys[1..] == [];
    assert Sweep(b.entries, ["m"], 1) == Sweep(b.entries.Delete("m"), [], 1);
    assert b.poisoned.keys == ["m"] && b.poisoned.keys[1..] == [];
    assert Sweep(b.poisoned, ["m"], 1) == Sweep(b.poisoned.Delete("m"), [], 1);
    assert Removed(["m"], "m") == [];
  }

  /**
   Poisoning marks a key, known or not, and replaces the expiry of its entry: whatever the claim had
   been given, the next claim of the key is fresh exactly once the poison has run out.
   */
  lemma PoisonSetsExpiry(s: Store, k: string, ttl: int, now: int, laterTtl: int, later: int, maxEntries: nat)
    requires Ok(s) && (s.entries.Has(k) ==> Behind(s.entries.keys, k) < maxEntries)
    ensures Claimed(Poison(s, k, ttl, now), k, laterTtl, later, maxEntries).1 == Fresh <==> now + ttl <= later
  {
    var u := Poison(s, k, ttl, now);
    SetValid(s.entries, k, now + ttl);
    SetValid(s.poisoned, k, now + ttl);
    assert u.entries.keys == s.entries.keys && u.poisoned.vals[k] == now + ttl;
    PruneKeeps(u, later, maxEntries, k);
    hide Pruned;
  }

  // ---- A poisoned key without an entry stays blocked, however many others come ----

  ghost predicate Blocked(s: Store, k: string, expiry: int) {
    Ok(s) && !s.entries.Has(k) && s.poisoned.Has(k) && s.poisoned.vals[k] >= expiry
  }

  lemma BlockedClaim(s: Store, key: string, ttl: int, now: int, maxEntries: nat, k: string, expiry: int)
    requires Blocked(s, k, expiry) && now < expiry
    ensures var (t, answer) := Claimed(s, key, ttl, now, maxEntries);
            Blocked(t, k, expiry) && (key == k ==> answer == Poisoned)
  {
    PruneKeeps(s, now, maxEntries, k);
    var t := Pruned(s, now, maxEntries);
    if key != k {
      InsertOk(t, key, now + ttl);
      RemovedIn(t.entries.keys, key, k);
    }
  }

  predicate OutlivesIn(op: Op, now: int, k: string, expiry: int) {
    now < expiry && (op.OpPoison? && op.key == k ==> now + op.ttl >= expiry)
  }

  lemma BlockedStep(s: Store, op: Op, now: int, maxEntries: nat, k: string, expiry: int)
    requires Blocked(s, k, expiry) && OutlivesIn(op, now, k, expiry)
    ensures var (t, answer) := Step(s, op, now, maxEntries);
            Blocked(t, k, expiry) && !(answer == Fresh && op.key == k)
  {
    hide Pruned, Inserted, Claimed, Marked, Removed, Elements, Distinct;
    match op {
      case OpClaim(key, ttl) => BlockedClaim(s, key, ttl, now, maxEntries, k, expiry);
      case OpMark(key, ttl) =>
        MarkIsClaim(s, key, ttl, now, maxEntries);
        BlockedClaim(s, key, ttl, now, maxEntries, k, expiry);
      case OpPoison(key, ttl) =>
        SetValid(s.entries, key, now + ttl);
        SetValid(s.poisoned, key, now + ttl);
      case OpUnmark(key) => DeleteValid(s.entries, key);
      case OpHas(key) => DeleteValid(s.entries, key);
      case OpIsPoisoned(key) => DeleteValid(s.poisoned, key);
    }
  }

  lemma {:induction false} BlockedRun(s: Store, ops: seq<Timed>, maxEntries: nat, k: string, expiry: int)
    requires Blocked(s, k, expiry)
    requires forall i :: 0 <= i < |ops| ==> OutlivesIn(ops[i].0, ops[i].1, k, expiry)
    ensures !GrantedAgain(s, ops, k, maxEntries)
    decreases |ops|
  {
    if ops != [] {
      hide Step, Blocked, OutlivesIn;
      BlockedStep(s, ops[0].0, ops[0].1, maxEntries, k, expiry);
      BlockedRun(Step(s, ops[0].0, ops[0].1, maxEntries).0, ops[1..], maxEntries, k, expiry);
    }
  }

  /** Unmarking a poisoned key never reopens it before the poison runs out, in any run that does not poison it for a shorter time. */
  lemma UnmarkKeepsPoison(s: Store, k: string, expiry: int, ops: seq<Timed>, maxEntries: nat)
    requires Ok(s) && s.poisoned.Has(k) && s.poisoned.vals[k] >= expiry
    requires forall i :: 0 <= i < |ops| ==> OutlivesIn(ops[i].0, ops[i].1, k, expiry)
    ensures !GrantedAgain(Unmarked(s, k), ops, k, maxEntries)
  {
    DeleteValid(s.entries, k);
    BlockedRun(Unmarked(s, k), ops, maxEntries, k, expiry);
  }

  // ---- Bounded size ----

  lemma StepSize(s: Store, op: Op, now: int, maxEntries: nat)
    requires Ok(s) && s.entries.Size() <= maxEntries + 1
    ensures var t := Step(s, op, now, maxEntries).0;
            Ok(t) && t.entries.Size() <= maxEntries + 1
  {
    hide Pruned, Inserted, Removed, Elements, Distinct;
    match op
    case OpClaim(key, ttl) =>
      PruneKeeps(s, now, maxEntries, key);
      InsertOk(Pruned(s, now, maxEntries), key, now + ttl);
    case OpMark(key, ttl) =>
      PruneKeeps(s, now, maxEntries, key);
      InsertOk(Pruned(s, now, maxEntries), key, now + ttl);
    case OpPoison(key, ttl) =>
      SetValid(s.entries, key, now + ttl);
      SetValid(s.poisoned, key, now + ttl);
    case OpUnmark(key) => DeleteValid(s.entries, key);
    case OpHas(key) => DeleteValid(s.entries, key);
    case OpIsPoisoned(key) => DeleteValid(s.poisoned, key);
  }

  /** In every reachable state the entry map holds at most `maxEntries + 1` keys. */
  lemma {:induction false} SizeBounded(s: Store, ops: seq<Timed>, maxEntries: nat)
    requires Ok(s) && s.entries.Size() <= maxEntries + 1
    ensures Ok(After(s, ops, maxEntries)) && After(s, ops, maxEntries).entries.Size() <= maxEntries + 1
    decreases |ops|
  {
    if ops != [] {
      StepSize(s, ops[0].0, ops[0].1, maxEntries);
      SizeBounded(Step(s, ops[0].0, ops[0].1, maxEntries).0, ops[1..], maxEntries);
    }
  }

  // ---- The store itself ----

  class InMemoryGatewayIdempotencyStore {
    var entries: Entries
    var poisoned: Entries
    const maxEntries: nat

    ghost function St(): Store
      reads this
    {
      Store(entries, poisoned)
    }

    constructor (maxEntries: nat)
      ensures this.maxEntries == maxEntries && Ok(St())
      ensures St() == Store(EmptyMap(), EmptyMap())
    {
      entries, poisoned := EmptyMap(), EmptyMap();
      this.maxEntries := maxEntries;
    }

    method Prune(now: int)
      requires Ok(St())
      modifies this
      ensures St() == Pruned(old(St()), now, maxEntries) && Ok(St())
    {
      PruneKeeps(St(), now, maxEntries, "");
      entries := SweepExpired(entries, now);
      poisoned := SweepExpired(poisoned, now);
      if entries.Size() > maxEntries {
        var overflow := entries.Size() - maxEntries;
        ghost var t := St();
        var keys := entries.keys;
        var removed := 0;
        while removed < overflow
          invariant 0 <= removed <= overflow && overflow <= |keys|
          invariant Evict(t, keys[..overflow]) == Evict(St(), keys[removed..overflow])
        {
          assert keys[removed..overflow][0] == keys[removed];
          assert keys[removed..overflow][1..] == keys[removed + 1..overflow];
          entries := entries.Delete(keys[removed]);
          poisoned := poisoned.Delete(keys[removed]);
          removed := removed + 1;
        }
      }
    }

    method MarkIfAbsent(key: string, ttlMs: int, now: int) returns (ok: bool)
      requires Ok(St())
      modifies this
      ensures Ok(St())
      ensures (St(), ok) == Marked(old(St()), key, ttlMs, now, maxEntries)
    {
      Prune(now);
      if Live(entries, key, now) { return false; }
      if Live(poisoned, key, now) { return false; }
      InsertOk(St(), key, now + ttlMs);
      if entries.Has(key) { entries := entries.Delete(key); }
      entries := entries.Set(key, now + ttlMs);
      return true;
    }

    method Claim(key: string, ttlMs: int, now: int) returns (answer: Answer)
      requires Ok(St())
      modifies this
      ensures Ok(St())
      ensures (St(), answer) == Claimed(old(St()), key, ttlMs, now, maxEntries)
    {
      Prune(now);
      if Live(poisoned, key, now) { return Poisoned; }
      if Live(entries, key, now) { return Duplicate; }
      InsertOk(St(), key, now + ttlMs);
      if entries.Has(key) { entries := entries.Delete(key); }
      entries := entries.Set(key, now + ttlMs);
      return Fresh;
    }

    method PoisonAfterProgress(key: string, ttlMs: int, now: int)
      requires Ok(St())
      modifies this
      ensures Ok(St()) && St() == Poison(old(St()), key, ttlMs, now)
    {
      SetValid(entries, key, now + ttlMs);
      SetValid(poisoned, key, now + ttlMs);
      poisoned := poisoned.Set(key, now + ttlMs);
      if entries.Has(key) { entries := entries.Set(key, now + ttlMs); }
    }

    method IsPoisoned(key: string, now: int) returns (b: bool)
      requires Ok(St())
      modifies this`poisoned
      ensures Ok(St()) && (poisoned, b) == Lookup(old(poisoned), key, now)
    {
      DeleteValid(poisoned, key);
      if !poisoned.Has(key) { return false; }
      if poisoned.vals[key] <= now {
        poisoned := poisoned.Delete(key);
        return false;
      }
      return true;
    }

    method Has(key: string, now: int) returns (b: bool)
      requires Ok(St())
      modifies this`entries
      ensures Ok(St()) && (entries, b) == Lookup(old(entries), key, now)
    {
      DeleteValid(entries, key);
      if !entries.Has(key) { return false; }
      if entries.vals[key] <= now {
        entries := entries.Delete(key);
        return false;
      }
      return true;
    }

    method Unmark(key: string)
      requires Ok(St())
      modifies this`entries
      ensures Ok(St()) && St() == Unmarked(old(St()), key)
    {
      DeleteValid(entries, key);
      entries := entries.Delete(key);
    }
  }

  /** The deleting loop of `prune` over one map. */
  method SweepExpired(m: Entries, now: int) returns (r: Entries)
    ensures r == Sweep(m, m.keys, now)
  {
    r := m;
    var i := 0;
    assert m.keys[0..] == m.keys;
    while i < |m.keys|
      invariant 0 <= i <= |m.keys|
      invariant Sweep(r, m.keys[i..], now) == Sweep(m, m.keys, now)
    {
      assert m.keys[i..][1..] == m.keys[i + 1..];
      if r.Has(m.keys[i]) && r.vals[m.keys[i]] <= now {
        r := r.Delete(m.keys[i]);
      }
      i := i + 1;
    }
  }
}
