/**
 What the WebSocket auth rate limiter has to remember, read off its calls alone
 (packages/gateway/src/index.ts:251-378).
 */
module AuthHistory {
  import opened AuthRateLimiter
  import opened BitMath
  import opened InsertionMap
  import opened TimeWindow

  // ---- The failures that count, from the calls alone ----

  /** Per IP the times of its failures, in the order in which the IPs came to have any. */
  type Ledger = Map<string, seq<int>>

  function FailuresOf(l: Ledger, ip: string): seq<int> {
    if l.Has(ip) then l.vals[ip] else []
  }

  /** Does a failure at `now` make it `maxAttempts` in the window that ends now? */
  predicate FillsWindow(c: Config, failures: seq<int>, now: int) {
    CountIn(failures, now - c.windowMs, now) + 1 >= c.maxAttempts
  }

  /**
   A failure is entered, unless it makes `maxAttempts` of them in the window: then the IP is banned and starts
   over, as it does after a success. Beyond `maxKeys` IPs the one that came first is forgotten.
   */
  function LedgerStep(c: Config, l: Ledger, op: Op, now: int): Ledger {
    match op
    case Before(_) => l
    case Fail(ip) =>
      var more := l.Set(ip, FailuresOf(l, ip) + [now]);
      if FillsWindow(c, FailuresOf(l, ip), now) then l.Delete(ip)
      else if 0 <= c.maxKeys < more.Size() then more.Delete(more.keys[0])
      else more
    case Success(ip) => l.Delete(ip)
    case Reset => EmptyMap()
  }

  function LedgerAfter(c: Config, l: Ledger, ops: seq<Timed>): Ledger
    decreases |ops|
  {
    if ops == [] then l else LedgerAfter(c, LedgerStep(c, l, ops[0].0, ops[0].1), ops[1..])
  }

  /** The limiter stores, for the same IPs in the same order, the recent part of the ledger. */
  ghost predicate Keeps(c: Config, s: State, l: Ledger, now: int) {
    && s.failures.Valid() && l.Valid() && s.failures.keys == l.keys && l.Size() <= c.maxKeys
    && forall ip :: ip in l.vals ==> ip in s.failures.vals && Recent(s.failures.vals[ip], l.vals[ip], now, c.windowMs)
  }

  lemma StoredRecent(c: Config, s: State, l: Ledger, ip: string, now: int)
    requires Keeps(c, s, l, now)
    ensures s.failures.Has(ip) <==> l.Has(ip)
    ensures Recent(FailuresOf(s.failures, ip), FailuresOf(l, ip), now, c.windowMs)
  {
    hide Recent;
    assert ip in Elements(l.keys) <==> ip in l.vals;
    assert ip in Elements(s.failures.keys) <==> ip in s.failures.vals;
    NothingRecent(now, c.windowMs);
  }

  lemma NothingRecent(now: int, window: int)
    ensures Recent([], [], now, window)
  {
  }

  lemma LaterKeeps(c: Config, s: State, l: Ledger, now: int, later: int)
    requires Keeps(c, s, l, now) && now <= later
    ensures Keeps(c, s, l, later)
  {
    forall ip | ip in l.vals ensures Recent(s.failures.vals[ip], l.vals[ip], later, c.windowMs) {
      LaterRecent(s.failures.vals[ip], l.vals[ip], now, later, c.windowMs);
    }
    hide Recent;
  }

  /** The stored list says how many failures lie in the window. */
  lemma StoredCount(c: Config, s: State, l: Ledger, ip: string, now: int)
    requires Keeps(c, s, l, now)
    ensures var kept := DropOld(FailuresOf(s.failures, ip), now - c.windowMs);
            |kept| == CountIn(FailuresOf(l, ip), now - c.windowMs, now) && Recent(kept, FailuresOf(l, ip), now, c.windowMs)
    ensures ReachesLimit(c, s, ip, now) <==> FillsWindow(c, FailuresOf(l, ip), now)
  {
    hide Recent, CountIn, DropOld;
    StoredRecent(c, s, l, ip, now);
    PruneRecent(FailuresOf(s.failures, ip), FailuresOf(l, ip), now, now, c.windowMs);
  }

  // ---- One call ----

  lemma SetKeeps(c: Config, m: Ledger, l: Ledger, ip: string, times: seq<int>, history: seq<int>, s: State, now: int)
    requires Keeps(c, s, l, now) && m == s.failures && Recent(times, history, now, c.windowMs)
    ensures var a, b := m.Set(ip, times), l.Set(ip, history);
            && a.Valid() && b.Valid() && a.keys == b.keys
            && forall k :: k in b.vals ==> k in a.vals && Recent(a.vals[k], b.vals[k], now, c.windowMs)
  {
    hide Recent, Elements;
    StoredRecent(c, s, l, ip, now);
    SetValid(m, ip, times);
    SetValid(l, ip, history);
  }

  lemma DeleteKeeps(c: Config, a: Ledger, b: Ledger, ip: string, now: int)
    requires a.Valid() && b.Valid() && a.keys == b.keys
    requires forall k :: k in b.vals ==> k in a.vals && Recent(a.vals[k], b.vals[k], now, c.windowMs)
    ensures var x, y := a.Delete(ip), b.Delete(ip);
            && x.Valid() && y.Valid() && x.keys == y.keys
            && forall k :: k in y.vals ==> k in x.vals && Recent(x.vals[k], y.vals[k], now, c.windowMs)
  {
    hide Recent, Removed;
    DeleteValid(a, ip);
    DeleteValid(b, ip);
  }

  /** Setting a key and deleting it again is deleting it. */
  lemma SetDelete(m: Ledger, ip: string, times: seq<int>)
    requires m.Valid()
    ensures m.Set(ip, times).Delete(ip) == m.Delete(ip)
  {
    if !m.Has(ip) {
      RemovedSnoc(m.keys, ip);
    }
    assert m.Set(ip, times).Delete(ip).vals == m.Delete(ip).vals;
  }

  lemma {:induction false} RemovedSnoc(keys: seq<string>, k: string)
    ensures Removed(keys + [k], k) == Removed(keys, k)
  {
    if keys == [] {
      assert [k][1..] == [];
    } else {
      RemovedSnoc(keys[1..], k);
      assert (keys + [k])[1..] == keys[1..] + [k];
    }
  }

  lemma AskKeeps(c: Config, s: State, l: Ledger, ip: string, now: int)
    requires Inv(c, s, now) && Keeps(c, s, l, now)
    ensures Keeps(c, Asked(c, s, ip, now).0, l, now)
  {
    hide Recent, DropOld, CountIn, Inv, BanMs, Elements, Distinct, Evicted;
    StoredRecent(c, s, l, ip, now);
    StoredCount(c, s, l, ip, now);
    AskedInv(c, s, ip, now);
    if s.failures.Has(ip) {
      var kept := DropOld(s.failures.vals[ip], now - c.windowMs);
      SetKeeps(c, s.failures, l, ip, kept, l.vals[ip], s, now);
      assert l.Set(ip, l.vals[ip]) == l;
      AskedFailures(c, s, ip, now);
    }
  }

  lemma AskedFailures(c: Config, s: State, ip: string, now: int)
    requires Inv(c, s, now) && s.failures.Has(ip)
    ensures var t := Asked(c, s, ip, now).0;
            t.failures == s.failures || t.failures == s.failures.Set(ip, DropOld(s.failures.vals[ip], now - c.windowMs))
  {
    AskedInv(c, s, ip, now);
    hide DropOld, Inv, BanMs, Evicted;
  }

  lemma FailKeeps(c: Config, s: State, l: Ledger, ip: string, now: int)
    requires c.Valid() && Keeps(c, s, l, now)
    ensures Keeps(c, Failed(c, s, ip, now), LedgerStep(c, l, Fail(ip), now), now)
  {
    hide Recent, DropOld, CountIn, BanMs, Elements, Distinct, Removed, Capped;
    var had, history := FailuresOf(s.failures, ip), FailuresOf(l, ip);
    var kept := DropOld(had, now - c.windowMs);
    StoredCount(c, s, l, ip, now);
    GrowRecent(kept, history, now, c.windowMs);
    var a, b := s.failures.Set(ip, kept + [now]), l.Set(ip, history + [now]);
    SetKeeps(c, s.failures, l, ip, kept + [now], history + [now], s, now);
    SetValid(l, ip, history + [now]);
    if FillsWindow(c, history, now) {
      DeleteKeeps(c, a, b, ip, now);
      SetDelete(l, ip, history + [now]);
      DeleteValid(l, ip);
      CappedOnce(a.Delete(ip), c.maxKeys);
      FailedFailures(c, s, ip, now);
    } else {
      CappedOnce(a, c.maxKeys);
      if b.Size() > c.maxKeys {
        DeleteKeeps(c, a, b, b.keys[0], now);
        DeleteValid(b, b.keys[0]);
        FirstHeld(b);
      }
      FailedFailures(c, s, ip, now);
    }
  }

  lemma FirstHeld(m: Ledger)
    requires m.Valid() && m.keys != []
    ensures m.Has(m.keys[0])
  {
    assert m.keys[0] in Elements(m.keys);
  }

  lemma FailedFailures(c: Config, s: State, ip: string, now: int)
    ensures var times := DropOld(FailuresOf(s.failures, ip), now - c.windowMs) + [now];
            var a := s.failures.Set(ip, times);
            Failed(c, s, ip, now).failures ==
            Capped(if ReachesLimit(c, s, ip, now) then a.Delete(ip) else a, c.maxKeys)
  {
    hide DropOld, BanMs, Capped;
  }

  lemma StepKeeps(c: Config, s: State, l: Ledger, op: Op, now: int)
    requires Inv(c, s, now) && Keeps(c, s, l, now)
    ensures Keeps(c, Step(c, s, op, now), LedgerStep(c, l, op, now), now)
  {
    match op {
      case Before(ip) => AskKeeps(c, s, l, ip, now);
      case Fail(ip) => FailKeeps(c, s, l, ip, now);
      case Success(ip) =>
        DeleteKeeps(c, s.failures, l, ip, now);
        DeleteValid(l, ip);
      case Reset =>
    }
  }

  // ---- Runs ----

  /** In every run with a clock the stored lists are the recent parts of the ledger that the calls alone define. */
  lemma {:induction false} LedgerKept(c: Config, s: State, l: Ledger, ops: seq<Timed>, now: int)
    requires Inv(c, s, now) && ClockFrom(ops, now) && Keeps(c, s, l, now)
    ensures Keeps(c, After(c, s, ops), LedgerAfter(c, l, ops), EndOf(ops, now))
    ensures Inv(c, After(c, s, ops), EndOf(ops, now))
    decreases |ops|
  {
    hide Keeps, Inv, Step, LedgerStep;
    if ops != [] {
      var op, t := ops[0].0, ops[0].1;
      InvLater(c, s, now, t);
      LaterKeeps(c, s, l, now, t);
      StepKeeps(c, s, l, op, t);
      StepInv(c, s, op, t);
      LedgerKept(c, Step(c, s, op, t), LedgerStep(c, l, op, t), ops[1..], t);
    }
  }

  lemma BlankKeeps(c: Config)
    requires c.Valid()
    ensures Inv(c, BLANK, 0) && Keeps(c, BLANK, EmptyMap(), 0)
  {
  }

  /** The ledger of a run from a new limiter on. */
  function History(c: Config, ops: seq<Timed>): Ledger { LedgerAfter(c, EmptyMap(), ops) }

  /**
   After every run: a failure bans its IP, one level up and from now on, if and only if with it `maxAttempts`
   failures of the IP lie in the window, counting from the calls alone; otherwise it changes no ban.
   */
  lemma BansAtLimit(c: Config, ops: seq<Timed>, ip: string, now: int)
    requires c.Valid() && ClockFrom(ops, 0) && EndOf(ops, 0) <= now
    ensures var s := After(c, BLANK, ops); var t := Step(c, s, Fail(ip), now);
            var level := LevelOf(s.bans, ip) + 1;
            if CountIn(FailuresOf(History(c, ops), ip), now - c.windowMs, now) + 1 >= c.maxAttempts
            then t.bans.Has(ip) && t.bans.vals[ip] == Ban(now + BanMs(c, level), level)
            else t.bans == s.bans
  {
    hide *;
    LedgerHolds(c, ops, now);
    var s := After(c, BLANK, ops);
    FailBans(c, s, History(c, ops), ip, now);
    FailStep(c, s, ip, now);
  }

  lemma LedgerHolds(c: Config, ops: seq<Timed>, now: int)
    requires c.Valid() && ClockFrom(ops, 0) && EndOf(ops, 0) <= now
    ensures var s := After(c, BLANK, ops);
            Inv(c, s, now) && Keeps(c, s, History(c, ops), now) && s.bans.Size() <= c.maxKeys
  {
    hide Keeps, Inv, LedgerAfter, After;
    var s := After(c, BLANK, ops);
    BlankKeeps(c);
    LedgerKept(c, BLANK, EmptyMap(), ops, 0);
    InvLater(c, s, EndOf(ops, 0), now);
    LaterKeeps(c, s, History(c, ops), EndOf(ops, 0), now);
    BansBounded(c, BLANK, ops, 0);
  }

  lemma FailStep(c: Config, s: State, ip: string, now: int)
    ensures Step(c, s, Fail(ip), now) == Failed(c, s, ip, now)
  {
  }

  lemma FailBans(c: Config, s: State, l: Ledger, ip: string, now: int)
    requires Inv(c, s, now) && Keeps(c, s, l, now) && s.bans.Size() <= c.maxKeys
    ensures var t := Failed(c, s, ip, now); var level := LevelOf(s.bans, ip) + 1;
            if CountIn(FailuresOf(l, ip), now - c.windowMs, now) + 1 >= c.maxAttempts
            then t.bans.Has(ip) && t.bans.vals[ip] == Ban(now + BanMs(c, level), level)
            else t.bans == s.bans
  {
    hide Keeps, Inv, CountIn, BanMs, Capped, ReachesLimit, Failed, FailuresOf;
    StoredCount(c, s, l, ip, now);
    MapsValid(c, s, now);
    FailedBans(c, s, ip, now);
    var level := LevelOf(s.bans, ip) + 1;
    CappedSet(s.bans, c.maxKeys, ip, Ban(now + BanMs(c, level), level));
    CappedAt(s.bans, c.maxKeys, ip);
  }

  lemma {:induction false} BansBounded(c: Config, s: State, ops: seq<Timed>, now: int)
    requires Inv(c, s, now) && ClockFrom(ops, now) && s.bans.Size() <= c.maxKeys
    ensures After(c, s, ops).bans.Size() <= c.maxKeys
    decreases |ops|
  {
    if ops != [] {
      hide Inv, Step;
      var op, t := ops[0].0, ops[0].1;
      InvLater(c, s, now, t);
      BanAfter(c, s, op, t, "");
      StepInv(c, s, op, t);
      BansBounded(c, Step(c, s, op, t), ops[1..], t);
    }
  }

  /** What `getFailureCount` answers is the number of failures in the window, counting from the calls alone. */
  lemma FailureCountExact(c: Config, ops: seq<Timed>, ip: string, now: int)
    requires c.Valid() && ClockFrom(ops, 0) && EndOf(ops, 0) <= now
    ensures var s := After(c, BLANK, ops);
            NewestRun(FailuresOf(s.failures, ip), now - c.windowMs) ==
            CountIn(FailuresOf(History(c, ops), ip), now - c.windowMs, now)
  {
    hide *;
    LedgerHolds(c, ops, now);
    CountKept(c, After(c, BLANK, ops), History(c, ops), ip, now);
  }

  lemma CountKept(c: Config, s: State, l: Ledger, ip: string, now: int)
    requires Keeps(c, s, l, now)
    ensures NewestRun(FailuresOf(s.failures, ip), now - c.windowMs) == CountIn(FailuresOf(l, ip), now - c.windowMs, now)
  {
    hide *;
    StoredCount(c, s, l, ip, now);
    StoredRecent(c, s, l, ip, now);
    RecentAscends(FailuresOf(s.failures, ip), FailuresOf(l, ip), now, c.windowMs);
    NewestRunIsWindow(FailuresOf(s.failures, ip), now - c.windowMs);
  }

  lemma RecentAscends(times: seq<int>, history: seq<int>, now: int, window: int)
    requires Recent(times, history, now, window)
    ensures Ascending(times)
  {
    AscendingParts(history[..|history| - |times|], times);
  }

  // ---- Lengths and limits ----

  /** The first ban lasts the base, and each later one twice as long as the one before, up to the maximum. */
  lemma BansDouble(c: Config, level: nat)
    requires c.Valid() && level >= 1
    ensures BanMs(c, 1) == c.baseBanMs
    ensures BanMs(c, level + 1) == if 2 * BanMs(c, level) <= c.maxBanMs then 2 * BanMs(c, level) else c.maxBanMs
  {
    assert Pow2(0) == 1 && Pow2(level) == 2 * Pow2(level - 1);
    var x := c.baseBanMs * Pow2(level - 1);
    assert c.baseBanMs * Pow2(level) == 2 * x by { DoubleProduct(c.baseBanMs, Pow2(level - 1)); }
  }

  lemma DoubleProduct(a: int, b: int)
    ensures a * (2 * b) == 2 * (a * b)
  {
  }

  /** Options within the bounds are taken as they are; each one out of bounds is replaced by its bound. */
  lemma ClampExact(maxAttempts: int, windowMs: int, baseBanMs: int, maxBanMs: int, maxKeys: int)
    ensures var c := Clamp(maxAttempts, windowMs, baseBanMs, maxBanMs, maxKeys);
            && c.maxAttempts == (if maxAttempts >= 1 then maxAttempts else 1)
            && c.windowMs == (if windowMs >= 1000 then windowMs else 1000)
            && c.baseBanMs == (if baseBanMs >= 1000 then baseBanMs else 1000)
            && c.maxBanMs == (if maxBanMs >= c.baseBanMs then maxBanMs else c.baseBanMs)
            && c.maxKeys == (if maxKeys >= 100 then maxKeys else 100)
    ensures Config(maxAttempts, windowMs, baseBanMs, maxBanMs, maxKeys).Valid() ==>
              Clamp(maxAttempts, windowMs, baseBanMs, maxBanMs, maxKeys) ==
              Config(maxAttempts, windowMs, baseBanMs, maxBanMs, maxKeys)
  {
  }

  /** A denied check reports the least number of whole seconds that outlasts the ban. */
  lemma RetryAfterExact(c: Config, s: State, ip: string, now: int)
    requires Inv(c, s, now)
    ensures var d := Asked(c, s, ip, now).1;
            d.Denied? ==>
              s.bans.Has(ip) && (d.retryAfterSec - 1) * 1000 < s.bans.vals[ip].until - now <= d.retryAfterSec * 1000
  {
    AskedInv(c, s, ip, now);
    AskedBans(c, s, ip, now);
    if Active(s, ip, now) { CeilDivExact(s.bans.vals[ip].until - now); }
    hide Inv, BanMs, DropOld, Evicted, CeilDiv;
  }

  lemma CeilDivExact(ms: int)
    ensures (CeilDiv(ms, 1000) - 1) * 1000 < ms <= CeilDiv(ms, 1000) * 1000
  {
  }
}
