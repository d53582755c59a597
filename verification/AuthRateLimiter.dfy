/**
 The WebSocket auth rate limiter with escalating bans (`WsAuthRateLimiter`,
 packages/gateway/src/index.ts:245-378). The clock is a parameter of every call.
 */
module AuthRateLimiter {
  import opened BitMath
  import opened InsertionMap
  import opened TimeWindow

  datatype Ban = Ban(until: int, level: nat)

  /** The limits after the constructor has clamped the options. */
  datatype Config = Config(maxAttempts: int, windowMs: int, baseBanMs: int, maxBanMs: int, maxKeys: int) {
    predicate Valid() {
      maxAttempts >= 1 && windowMs >= 1000 && baseBanMs >= 1000 && maxBanMs >= baseBanMs && maxKeys >= 100
    }
  }

  function Max(a: int, b: int): int { if a < b then b else a }
  function Min(a: int, b: int): int { if a < b then a else b }

  function Clamp(maxAttempts: int, windowMs: int, baseBanMs: int, maxBanMs: int, maxKeys: int): (c: Config)
    ensures c.Valid()
  {
    var base := Max(1000, baseBanMs);
    Config(Max(1, maxAttempts), Max(1000, windowMs), base, Max(base, maxBanMs), Max(100, maxKeys))
  }

  datatype State = State(failures: Map<string, seq<int>>, bans: Map<string, Ban>)

  datatype Reason = RateLimited | Banned
  datatype Decision = Allowed | Denied(retryAfterSec: int, reason: Reason)

  /** Length of a ban at an escalation level. */
  function BanMs(c: Config, level: nat): int {
    Min(c.maxBanMs, c.baseBanMs * Pow2(if level == 0 then 0 else level - 1))
  }

  function CeilDiv(a: int, b: int): int
    requires b > 0
  {
    -((-a) / b)
  }

  function LevelOf(bans: Map<string, Ban>, ip: string): nat {
    if bans.Has(ip) then bans.vals[ip].level else 0
  }

  /** Cap a map: the keys inserted first go first. */
  function DropKeys<V>(m: Map<string, V>, keys: seq<string>): Map<string, V>
    decreases |keys|
  {
    if keys == [] then m else DropKeys(m.Delete(keys[0]), keys[1..])
  }

  function Capped<V>(m: Map<string, V>, maxKeys: int): Map<string, V> {
    if m.Size() > maxKeys && maxKeys >= 0 then DropKeys(m, m.keys[..m.Size() - maxKeys]) else m
  }

  function Evicted(c: Config, s: State): State {
    State(Capped(s.failures, c.maxKeys), Capped(s.bans, c.maxKeys))
  }

  /** `beforeAuth` */
  function Asked(c: Config, s: State, ip: string, now: int): (State, Decision) {
    if s.bans.Has(ip) && s.bans.vals[ip].until > now then
      (s, Denied(CeilDiv(s.bans.vals[ip].until - now, 1000), Banned))
    else
      var bans := if s.bans.Has(ip) then s.bans.Delete(ip).Set(ip, Ban(0, s.bans.vals[ip].level)) else s.bans;
      if !s.failures.Has(ip) then (State(s.failures, bans), Allowed)
      else
        var recent := DropOld(s.failures.vals[ip], now - c.windowMs);
        if |recent| >= c.maxAttempts then
          var level := LevelOf(bans, ip) + 1;
          var t := State(s.failures.Set(ip, recent).Delete(ip), bans.Set(ip, Ban(now + BanMs(c, level), level)));
          (Evicted(c, t), Denied(CeilDiv(BanMs(c, level), 1000), RateLimited))
        else (State(s.failures.Set(ip, recent), bans), Allowed)
  }

  /** `recordFailure` */
  function Failed(c: Config, s: State, ip: string, now: int): State {
    var had := if s.failures.Has(ip) then s.failures.vals[ip] else [];
    var times := DropOld(had, now - c.windowMs) + [now];
    var failures := s.failures.Set(ip, times);
    if |times| >= c.maxAttempts then
      var level := LevelOf(s.bans, ip) + 1;
      Evicted(c, State(failures.Delete(ip), s.bans.Set(ip, Ban(now + BanMs(c, level), level))))
    else Evicted(c, State(failures, s.bans))
  }

  function Succeeded(s: State, ip: string): State {
    State(s.failures.Delete(ip), s.bans.Delete(ip))
  }

  const BLANK := State(EmptyMap(), EmptyMap())

  datatype Op = Before(ip: string) | Fail(ip: string) | Success(ip: string) | Reset

  function Step(c: Config, s: State, op: Op, now: int): State {
    match op
    case Before(ip) => Asked(c, s, ip, now).0
    case Fail(ip) => Failed(c, s, ip, now)
    case Success(ip) => Succeeded(s, ip)
    case Reset => BLANK
  }

  // ---- The invariant of every reachable state ----

  predicate TimesOk(c: Config, times: seq<int>, now: int) {
    Ascending(times) && |times| < c.maxAttempts && forall i :: 0 <= i < |times| ==> times[i] <= now
  }

  predicate BanOk(c: Config, b: Ban, now: int) {
    b.level >= 1 && b.until <= now + BanMs(c, b.level)
  }

  ghost predicate FailuresOk(c: Config, m: Map<string, seq<int>>, now: int) {
    m.Valid() && forall ip :: ip in m.vals ==> TimesOk(c, m.vals[ip], now)
  }

  ghost predicate BansOk(c: Config, m: Map<string, Ban>, now: int) {
    m.Valid() && forall ip :: ip in m.vals ==> BanOk(c, m.vals[ip], now)
  }

  ghost predicate Inv(c: Config, s: State, now: int) {
    c.Valid() && now >= 0 && FailuresOk(c, s.failures, now) && BansOk(c, s.bans, now)
  }

  lemma {:induction false} DropKeysKeeps<V>(m: Map<string, V>, keys: seq<string>)
    requires m.Valid()
    ensures DropKeys(m, keys).Valid()
    ensures forall k :: k in DropKeys(m, keys).vals ==> k in m.vals && DropKeys(m, keys).vals[k] == m.vals[k]
    decreases |keys|
  {
    if keys != [] {
      DeleteValid(m, keys[0]);
      DropKeysKeeps(m.Delete(keys[0]), keys[1..]);
    }
  }

  /** Capping removes entries but changes none, and removes nothing up to the cap. */
  lemma CappedKeeps<V>(m: Map<string, V>, maxKeys: int)
    requires m.Valid()
    ensures Capped(m, maxKeys).Valid()
    ensures forall k :: k in Capped(m, maxKeys).vals ==> k in m.vals && Capped(m, maxKeys).vals[k] == m.vals[k]
    ensures m.Size() <= maxKeys ==> Capped(m, maxKeys) == m
  {
    if m.Size() > maxKeys && maxKeys >= 0 { DropKeysKeeps(m, m.keys[..m.Size() - maxKeys]); }
  }

  lemma CappedAt<V>(m: Map<string, V>, maxKeys: int, k: string)
    requires m.Valid()
    ensures Capped(m, maxKeys).Has(k) ==> m.Has(k) && Capped(m, maxKeys).vals[k] == m.vals[k]
    ensures m.Size() <= maxKeys ==> Capped(m, maxKeys) == m
  {
    CappedKeeps(m, maxKeys);
  }

  lemma EvictedInv(c: Config, s: State, now: int)
    requires Inv(c, s, now)
    ensures Inv(c, Evicted(c, s), now)
  {
    CappedKeeps(s.failures, c.maxKeys);
    CappedKeeps(s.bans, c.maxKeys);
  }

  lemma InvLater(c: Config, s: State, now: int, later: int)
    requires Inv(c, s, now) && now <= later
    ensures Inv(c, s, later)
  {
  }

  lemma {:induction false} DropOldOk(c: Config, times: seq<int>, now: int)
    requires TimesOk(c, times, now)
    ensures TimesOk(c, DropOld(times, now - c.windowMs), now)
    decreases |times|
  {
    if times != [] && times[0] <= now - c.windowMs { DropOldOk(c, times[1..], now); }
  }

  lemma SetFailures(c: Config, m: Map<string, seq<int>>, ip: string, times: seq<int>, now: int)
    requires FailuresOk(c, m, now)
    ensures m.Set(ip, times).Valid()
    ensures TimesOk(c, times, now) ==> FailuresOk(c, m.Set(ip, times), now)
    ensures FailuresOk(c, m.Set(ip, times).Delete(ip), now)
  {
    SetValid(m, ip, times);
    DeleteValid(m.Set(ip, times), ip);
  }

  lemma SetBan(c: Config, m: Map<string, Ban>, ip: string, b: Ban, now: int)
    requires BansOk(c, m, now) && BanOk(c, b, now)
    ensures BansOk(c, m.Set(ip, b), now)
  {
    SetValid(m, ip, b);
  }

  lemma DeleteKey(c: Config, s: State, ip: string, now: int)
    requires Inv(c, s, now)
    ensures FailuresOk(c, s.failures.Delete(ip), now) && BansOk(c, s.bans.Delete(ip), now)
  {
    DeleteValid(s.failures, ip);
    DeleteValid(s.bans, ip);
  }

  lemma FailureTimes(c: Config, s: State, ip: string, now: int)
    requires Inv(c, s, now)
    ensures var had := if s.failures.Has(ip) then s.failures.vals[ip] else [];
            TimesOk(c, had, now) && TimesOk(c, DropOld(had, now - c.windowMs), now)
  {
    DropOldOk(c, if s.failures.Has(ip) then s.failures.vals[ip] else [], now);
  }

  lemma NewBanOk(c: Config, level: nat, now: int)
    requires c.Valid() && level >= 1
    ensures BanOk(c, Ban(now + BanMs(c, level), level), now) && BanMs(c, level) >= 1000
  {
    BanMonotone(c, 1, level);
    assert Pow2(0) == 1;
  }

  lemma AskedInv(c: Config, s: State, ip: string, now: int)
    requires Inv(c, s, now)
    ensures Inv(c, Asked(c, s, ip, now).0, now)
    ensures Asked(c, s, ip, now).1.Denied? ==> Asked(c, s, ip, now).1.reason == Banned
  {
    hide FailuresOk, BansOk, BanOk, BanMs, DropOld, Ascending, Removed, Evicted;
    FailureTimes(c, s, ip, now);
    DeleteKey(c, s, ip, now);
    if s.bans.Has(ip) {
      var lifted := Ban(0, s.bans.vals[ip].level);
      LiftedOk(c, s, ip, now);
      SetBan(c, s.bans.Delete(ip), ip, lifted, now);
    }
    if s.failures.Has(ip) {
      SetFailures(c, s.failures, ip, DropOld(s.failures.vals[ip], now - c.windowMs), now);
    }
  }

  lemma LiftedOk(c: Config, s: State, ip: string, now: int)
    requires Inv(c, s, now) && s.bans.Has(ip)
    ensures BanOk(c, Ban(0, s.bans.vals[ip].level), now)
  {
    NewBanOk(c, s.bans.vals[ip].level, now);
  }

  lemma FailedInv(c: Config, s: State, ip: string, now: int)
    requires Inv(c, s, now)
    ensures Inv(c, Failed(c, s, ip, now), now)
  {
    hide FailuresOk, BansOk, BanMs, DropOld, Ascending, BanOk;
    var had := if s.failures.Has(ip) then s.failures.vals[ip] else [];
    var times := DropOld(had, now - c.windowMs) + [now];
    FailureTimes(c, s, ip, now);
    if |times| < c.maxAttempts { GrownOk(c, DropOld(had, now - c.windowMs), now); }
    SetFailures(c, s.failures, ip, times, now);
    var failures := s.failures.Set(ip, times);
    if |times| >= c.maxAttempts {
      var level := LevelOf(s.bans, ip) + 1;
      var ban := Ban(now + BanMs(c, level), level);
      NewBanOk(c, level, now);
      SetBan(c, s.bans, ip, ban, now);
      EvictedInv(c, State(failures.Delete(ip), s.bans.Set(ip, ban)), now);
    } else {
      EvictedInv(c, State(failures, s.bans), now);
    }
  }

  lemma GrownOk(c: Config, times: seq<int>, now: int)
    requires TimesOk(c, times, now) && |times| + 1 < c.maxAttempts
    ensures TimesOk(c, times + [now], now)
  {
  }

  lemma StepInv(c: Config, s: State, op: Op, now: int)
    requires Inv(c, s, now)
    ensures Inv(c, Step(c, s, op, now), now)
  {
    match op
    case Before(ip) => AskedInv(c, s, ip, now);
    case Fail(ip) => FailedInv(c, s, ip, now);
    case Success(ip) => DeleteKey(c, s, ip, now);
    case Reset =>
  }

  type Timed = (Op, int)

  predicate ClockFrom(ops: seq<Timed>, now: int)
    decreases |ops|
  {
    ops == [] || (now <= ops[0].1 && ClockFrom(ops[1..], ops[0].1))
  }

  function After(c: Config, s: State, ops: seq<Timed>): State
    decreases |ops|
  {
    if ops == [] then s else After(c, Step(c, s, ops[0].0, ops[0].1), ops[1..])
  }

  function EndOf(ops: seq<Timed>, now: int): int {
    if ops == [] then now else ops[|ops| - 1].1
  }

  /** In every reachable state each failure list is ascending, shorter than `maxAttempts` and in the past. */
  lemma {:induction false} ReachableInv(c: Config, s: State, ops: seq<Timed>, now: int)
    requires Inv(c, s, now) && ClockFrom(ops, now)
    ensures Inv(c, After(c, s, ops), EndOf(ops, now)) && now <= EndOf(ops, now)
    decreases |ops|
  {
    if ops != [] {
      InvLater(c, s, now, ops[0].1);
      StepInv(c, s, ops[0].0, ops[0].1);
      ReachableInv(c, Step(c, s, ops[0].0, ops[0].1), ops[1..], ops[0].1);
    }
  }

  /** The pre-emptive `rate-limited` answer of `beforeAuth` is never given, in any run. */
  lemma NeverRateLimited(c: Config, ops: seq<Timed>, ip: string, now: int)
    requires c.Valid() && ClockFrom(ops, 0) && EndOf(ops, 0) <= now
    ensures var d := Asked(c, After(c, BLANK, ops), ip, now).1;
            d.Denied? ==> d.reason == Banned
  {
    ReachableInv(c, BLANK, ops, 0);
    InvLater(c, After(c, BLANK, ops), EndOf(ops, 0), now);
    AskedInv(c, After(c, BLANK, ops), ip, now);
  }

  // ---- An active ban is never shortened ----

  lemma BanMonotone(c: Config, a: nat, b: nat)
    requires c.Valid() && a <= b
    ensures BanMs(c, a) <= BanMs(c, b)
  {
    var x, y := if a == 0 then 0 else a - 1, if b == 0 then 0 else b - 1;
    PowMonotone(x, y);
    MulGrows(c.baseBanMs, Pow2(x), Pow2(y));
  }

  /**
   Under any interleaving, an active ban ends no earlier after the step than before it, unless the
   step is a success or a reset, or the ban is evicted, which takes more banned IPs than the cap.
   */
  lemma ActiveBanNotShortened(c: Config, s: State, op: Op, now: int, k: string)
    requires Inv(c, s, now) && s.bans.Has(k) && s.bans.vals[k].until > now
    requires op != Success(k) && op != Reset
    ensures var t := Step(c, s, op, now);
            && (t.bans.Has(k) ==> t.bans.vals[k].until >= s.bans.vals[k].until)
            && (s.bans.Size() < c.maxKeys ==> t.bans.Has(k))
  {
    match op
    case Before(ip) => AskedKeepsBan(c, s, ip, now, k);
    case Fail(ip) => FailedKeepsBan(c, s, ip, now, k);
    case Success(ip) =>
  }

  lemma AskedKeepsBan(c: Config, s: State, ip: string, now: int, k: string)
    requires Inv(c, s, now) && s.bans.Has(k) && s.bans.vals[k].until > now
    ensures var t := Asked(c, s, ip, now).0;
            t.bans.Has(k) && t.bans.vals[k] == s.bans.vals[k]
  {
    hide Inv, BanMs, DropOld, Evicted, Removed;
    AskedInv(c, s, ip, now);
  }

  /** A failure at `now` fills the window and bans the IP. */
  predicate ReachesLimit(c: Config, s: State, ip: string, now: int) {
    |DropOld(if s.failures.Has(ip) then s.failures.vals[ip] else [], now - c.windowMs)| + 1 >= c.maxAttempts
  }

  /** The bans before the cap applies: a failure that reaches the limit bans `ip` one level up. */
  function BannedUp(c: Config, s: State, ip: string, now: int): Map<string, Ban> {
    var level := LevelOf(s.bans, ip) + 1;
    if ReachesLimit(c, s, ip, now) then s.bans.Set(ip, Ban(now + BanMs(c, level), level)) else s.bans
  }

  lemma FailedBans(c: Config, s: State, ip: string, now: int)
    ensures Failed(c, s, ip, now).bans == Capped(BannedUp(c, s, ip, now), c.maxKeys)
  {
    hide BanMs, DropOld, Capped;
  }

  lemma ValidBans(c: Config, s: State, now: int, k: string)
    requires Inv(c, s, now)
    ensures c.Valid() && s.bans.Valid() && (s.bans.Has(k) ==> BanOk(c, s.bans.vals[k], now))
  {
  }

  lemma FailedKeepsBan(c: Config, s: State, ip: string, now: int, k: string)
    requires Inv(c, s, now) && s.bans.Has(k) && s.bans.vals[k].until > now
    ensures var t := Failed(c, s, ip, now);
            && (t.bans.Has(k) ==> t.bans.vals[k].until >= s.bans.vals[k].until)
            && (s.bans.Size() < c.maxKeys ==> t.bans.Has(k))
  {
    hide Inv, BanMs, DropOld, Capped, FailuresOk, BansOk, Distinct, Elements, Removed, Failed;
    FailedBans(c, s, ip, now);
    var level := LevelOf(s.bans, ip) + 1;
    var bans := s.bans.Set(ip, Ban(now + BanMs(c, level), level));
    ValidBans(c, s, now, k);
    SetValid(s.bans, ip, Ban(now + BanMs(c, level), level));
    BanMonotone(c, level - 1, level);
    CappedAt(bans, c.maxKeys, k);
    CappedAt(s.bans, c.maxKeys, k);
  }

  // ---- Escalation: sequential use of one IP ----

  datatype BanRecord = BanRecord(start: int, length: int)

  /** The bans of one IP since its last success, and whether its last `beforeAuth` was allowed and not yet used. */
  datatype Track = Track(log: seq<BanRecord>, admitted: bool)

  function TrackStep(c: Config, s: State, tr: Track, op: Op, now: int, k: string): Track {
    match op
    case Before(ip) => if ip == k then tr.(admitted := Asked(c, s, k, now).1.Allowed?) else tr
    case Fail(ip) =>
      if ip != k then tr
      else if ReachesLimit(c, s, k, now) then
        var t := Failed(c, s, k, now);
        Track(tr.log + [BanRecord(now, (if t.bans.Has(k) then t.bans.vals[k].until else now) - now)], false)
      else tr.(admitted := false)
    case Success(ip) => if ip == k then Track([], false) else tr
    case Reset => Track([], false)
  }

  function Tracked(c: Config, s: State, tr: Track, ops: seq<Timed>, k: string): Track
    decreases |ops|
  {
    if ops == [] then tr
    else Tracked(c, Step(c, s, ops[0].0, ops[0].1), TrackStep(c, s, tr, ops[0].0, ops[0].1, k), ops[1..], k)
  }

  /** Every recorded failure of `k` answers an allowed `beforeAuth` of `k` that nothing has used up yet. */
  predicate Sequential(c: Config, s: State, tr: Track, ops: seq<Timed>, k: string)
    decreases |ops|
  {
    ops == [] ||
    (&& (ops[0].0 == Fail(k) ==> tr.admitted)
     && Sequential(c, Step(c, s, ops[0].0, ops[0].1), TrackStep(c, s, tr, ops[0].0, ops[0].1, k), ops[1..], k))
  }

  function BanEnd(b: BanRecord): int { b.start + b.length }

  /** Ban number `i` has the length of level `i + 1`, and each ban starts after the one before has ended. */
  predicate Escalates(c: Config, log: seq<BanRecord>) {
    && (forall i :: 0 <= i < |log| ==> log[i].length == BanMs(c, i + 1))
    && (forall i :: 0 < i < |log| ==> log[i].start >= BanEnd(log[i - 1]))
  }

  function LastEnd(log: seq<BanRecord>): int { if log == [] then 0 else BanEnd(log[|log| - 1]) }

  /** The ban that is held for `k` is the last one of the log; with equal base and maximum its level does not matter. */
  predicate Remembers(c: Config, s: State, tr: Track, now: int, k: string) {
    && Escalates(c, tr.log)
    && (s.bans.Has(k) ==>
          var b := s.bans.vals[k];
          && tr.log != [] && (c.baseBanMs < c.maxBanMs ==> b.level == |tr.log|)
          && (b.until == LastEnd(tr.log) || (b.until == 0 && LastEnd(tr.log) <= now)))
  }

  predicate TrackOk(c: Config, s: State, tr: Track, now: int, k: string) {
    && Remembers(c, s, tr, now, k)
    && (tr.log != [] ==> s.bans.Has(k))
    && (tr.admitted ==> LastEnd(tr.log) <= now)
  }

  /** All IPs in use come from a set no larger than the cap, so nothing is ever evicted. */
  ghost predicate Roomy(c: Config, s: State, ips: set<string>) {
    |ips| <= c.maxKeys && Elements(s.failures.keys) <= ips && Elements(s.bans.keys) <= ips
  }

  lemma SetRoomy<V>(m: Map<string, V>, ip: string, v: V, ips: set<string>)
    requires Elements(m.keys) <= ips && ip in ips
    ensures Elements(m.Set(ip, v).keys) <= ips
  {
  }

  lemma DeleteRoomy<V>(m: Map<string, V>, ip: string, ips: set<string>)
    requires Elements(m.keys) <= ips
    ensures Elements(m.Delete(ip).keys) <= ips
  {
    RemovedElements(m.keys, ip);
  }

  lemma NothingEvicted<V>(m: Map<string, V>, maxKeys: int, ips: set<string>)
    requires m.Valid() && Elements(m.keys) <= ips && |ips| <= maxKeys
    ensures Capped(m, maxKeys) == m
  {
    DistinctFit(m.keys, ips);
  }

  /** Without eviction, what a recorded failure does to the bans. */
  lemma FailedRoomy(c: Config, s: State, ip: string, now: int, ips: set<string>)
    requires Inv(c, s, now) && Roomy(c, s, ips) && ip in ips
    ensures var level := LevelOf(s.bans, ip) + 1;
            Failed(c, s, ip, now).bans ==
            if ReachesLimit(c, s, ip, now) then s.bans.Set(ip, Ban(now + BanMs(c, level), level)) else s.bans
    ensures Roomy(c, Failed(c, s, ip, now), ips)
  {
    hide BanMs, DropOld, Capped, FailuresOk, BansOk, Removed, Distinct, Elements;
    MapsValid(c, s, now);
    var level := LevelOf(s.bans, ip) + 1;
    var ban := Ban(now + BanMs(c, level), level);
    var times := DropOld(if s.failures.Has(ip) then s.failures.vals[ip] else [], now - c.windowMs) + [now];
    var failures := s.failures.Set(ip, times);
    SetValid(s.failures, ip, times);
    SetRoomy(s.failures, ip, times, ips);
    DeleteValid(failures, ip);
    DeleteRoomy(failures, ip, ips);
    SetValid(s.bans, ip, ban);
    SetRoomy(s.bans, ip, ban, ips);
    NothingEvicted(failures, c.maxKeys, ips);
    NothingEvicted(failures.Delete(ip), c.maxKeys, ips);
    NothingEvicted(s.bans, c.maxKeys, ips);
    NothingEvicted(s.bans.Set(ip, ban), c.maxKeys, ips);
  }

  lemma MapsValid(c: Config, s: State, now: int)
    requires Inv(c, s, now)
    ensures c.Valid() && now >= 0 && s.failures.Valid() && s.bans.Valid()
  {
  }

  /** Is `k` banned at this time? */
  predicate Active(s: State, k: string, now: int) { s.bans.Has(k) && s.bans.vals[k].until > now }

  /** What an allowed or denied `beforeAuth` does to the bans. */
  lemma AskedBans(c: Config, s: State, ip: string, now: int)
    requires Inv(c, s, now)
    ensures var (t, d) := Asked(c, s, ip, now);
            && (d.Denied? <==> Active(s, ip, now))
            && (d.Denied? ==> t == s)
            && (d.Allowed? ==>
                  t.bans == if s.bans.Has(ip) then s.bans.Delete(ip).Set(ip, Ban(0, s.bans.vals[ip].level)) else s.bans)
  {
    hide BanMs, DropOld, FailuresOk, BansOk, Removed, Distinct, Elements, Evicted;
    AskedInv(c, s, ip, now);
  }

  lemma AskedRoomy(c: Config, s: State, ip: string, now: int, ips: set<string>)
    requires Inv(c, s, now) && Roomy(c, s, ips) && ip in ips
    ensures var (t, d) := Asked(c, s, ip, now);
            && Roomy(c, t, ips)
            && (d.Denied? <==> Active(s, ip, now))
            && (d.Denied? ==> t == s)
            && (d.Allowed? ==>
                  t.bans == if s.bans.Has(ip) then s.bans.Delete(ip).Set(ip, Ban(0, s.bans.vals[ip].level)) else s.bans)
  {
    hide BanMs, DropOld, Inv, Removed, Distinct, Elements, Evicted;
    AskedBans(c, s, ip, now);
    AskedInv(c, s, ip, now);
    if s.bans.Has(ip) {
      DeleteRoomy(s.bans, ip, ips);
      SetRoomy(s.bans.Delete(ip), ip, Ban(0, s.bans.vals[ip].level), ips);
    }
    if s.failures.Has(ip) {
      SetRoomy(s.failures, ip, DropOld(s.failures.vals[ip], now - c.windowMs), ips);
    }
  }

  predicate InvolvesOnly(op: Op, ips: set<string>) {
    op.Reset? || op.ip in ips
  }

  lemma NoBansEscalate(c: Config)
    ensures Escalates(c, [])
  {
  }

  lemma SucceededRoomy(c: Config, s: State, ip: string, ips: set<string>)
    requires Roomy(c, s, ips)
    ensures Roomy(c, Succeeded(s, ip), ips) && Roomy(c, BLANK, ips)
  {
    DeleteRoomy(s.failures, ip, ips);
    DeleteRoomy(s.bans, ip, ips);
  }

  lemma BlankRoomy(c: Config, ips: set<string>)
    requires |ips| <= c.maxKeys
    ensures Roomy(c, BLANK, ips) && Escalates(c, [])
  {
  }

  /** Appending a ban of the next length keeps the log escalating exactly when the last ban is over. */
  lemma LogGrows(c: Config, log: seq<BanRecord>, b: BanRecord)
    requires Escalates(c, log) && b.start >= 0
    ensures Escalates(c, log + [b]) <==> b.length == BanMs(c, |log| + 1) && LastEnd(log) <= b.start
  {
    hide BanMs;
    var more := log + [b];
    assert more[|log|] == b && forall i :: 0 <= i < |log| ==> more[i] == log[i];
  }

  /** A first ban is as long as a later one only when base and maximum are equal, and then all bans are. */
  lemma FirstLength(c: Config, level: nat)
    requires c.Valid() && level >= 2
    ensures BanMs(c, 1) == BanMs(c, level) <==> c.baseBanMs == c.maxBanMs
  {
    PowMonotone(1, level - 1);
    assert Pow2(0) == 1 && Pow2(1) == 2;
    MulGrows(c.baseBanMs, 1, Pow2(level - 1));
    MulGrows(c.baseBanMs, 2, Pow2(level - 1));
  }

  lemma EqualLengths(c: Config, a: nat, b: nat)
    requires c.Valid() && c.baseBanMs == c.maxBanMs
    ensures BanMs(c, a) == BanMs(c, b)
  {
    BanMonotone(c, 0, a);
    BanMonotone(c, 0, b);
    assert Pow2(0) == 1;
  }

  // ---- Exactly the runs in which bans escalate ----

  /** With at most one key too many, only the oldest can go. */
  lemma CappedOnce<V>(m: Map<string, V>, maxKeys: int)
    requires m.Valid() && 0 <= maxKeys && m.Size() <= maxKeys + 1
    ensures Capped(m, maxKeys) == if m.Size() <= maxKeys then m else m.Delete(m.keys[0])
    ensures Capped(m, maxKeys).Size() <= maxKeys
  {
    if m.Size() > maxKeys {
      assert m.Size() - maxKeys == 1 && m.keys[..m.Size() - maxKeys] == [m.keys[0]] && [m.keys[0]][1..] == [];
      assert DropKeys(m.Delete(m.keys[0]), []) == m.Delete(m.keys[0]);
      DeleteValid(m, m.keys[0]);
      assert m.keys[0] in Elements(m.keys);
    }
  }

  /** The key that was just set is never the one that goes. */
  lemma CappedSet<V>(m: Map<string, V>, maxKeys: int, k: string, v: V)
    requires m.Valid() && 1 <= maxKeys && m.Size() <= maxKeys
    ensures var t := Capped(m.Set(k, v), maxKeys); t.Has(k) && t.vals[k] == v && t.Size() <= maxKeys
  {
    SetValid(m, k, v);
    CappedOnce(m.Set(k, v), maxKeys);
    if m.Set(k, v).Size() > maxKeys { assert m.keys[0] in Elements(m.keys) && m.keys[0] != k; }
  }

  /** What one operation does to the ban of `k`. */
  lemma BanAfter(c: Config, s: State, op: Op, now: int, k: string)
    requires Inv(c, s, now) && s.bans.Size() <= c.maxKeys
    ensures var t := Step(c, s, op, now); var level := LevelOf(s.bans, k) + 1;
            && t.bans.Size() <= c.maxKeys
            && (op == Fail(k) && ReachesLimit(c, s, k, now) ==>
                  t.bans.Has(k) && t.bans.vals[k] == Ban(now + BanMs(c, level), level))
            && (op == Before(k) && !Active(s, k, now) ==>
                  (t.bans.Has(k) ==> s.bans.Has(k) && t.bans.vals[k] == Ban(0, s.bans.vals[k].level)))
            && (op == Success(k) || op == Reset ==> !t.bans.Has(k))
            && (op != Reset &&
                (op.ip != k || (op.Before? && Active(s, k, now)) || (op.Fail? && !ReachesLimit(c, s, k, now))) ==>
                  (t.bans.Has(k) ==> s.bans.Has(k) && t.bans.vals[k] == s.bans.vals[k]))
  {
    hide Inv, BanMs, Asked, Failed, ReachesLimit, Removed, Distinct, Elements, Capped;
    MapsValid(c, s, now);
    match op
    case Before(ip) =>
      AskedBans(c, s, ip, now);
      DeleteValid(s.bans, ip);
      if s.bans.Has(ip) { SetValid(s.bans.Delete(ip), ip, Ban(0, s.bans.vals[ip].level)); }
    case Fail(ip) =>
      var level := LevelOf(s.bans, ip) + 1;
      var ban := Ban(now + BanMs(c, level), level);
      FailedBans(c, s, ip, now);
      SetValid(s.bans, ip, ban);
      CappedSet(s.bans, c.maxKeys, ip, ban);
      CappedAt(s.bans.Set(ip, ban), c.maxKeys, k);
      CappedAt(s.bans, c.maxKeys, k);
    case Success(ip) => DeleteValid(s.bans, ip);
    case Reset =>
  }

  /** Does the log escalate after every step of the run? */
  predicate EscalatesThroughout(c: Config, s: State, tr: Track, ops: seq<Timed>, k: string)
    decreases |ops|
  {
    Escalates(c, tr.log) &&
    (ops == [] ||
     EscalatesThroughout(c, Step(c, s, ops[0].0, ops[0].1), TrackStep(c, s, tr, ops[0].0, ops[0].1, k), ops[1..], k))
  }

  /**
   A failure at the limit comes while `k` is banned, or after its last ban was evicted: the level is then
   forgotten, which shows unless all bans are equally long, and so may be a ban that still runs.
   */
  predicate BansTooSoon(c: Config, s: State, tr: Track, op: Op, now: int, k: string) {
    op == Fail(k) && ReachesLimit(c, s, k, now) &&
    (Active(s, k, now) ||
     (tr.log != [] && !s.bans.Has(k) && (c.baseBanMs < c.maxBanMs || LastEnd(tr.log) > now)))
  }

  predicate NeverTooSoon(c: Config, s: State, tr: Track, ops: seq<Timed>, k: string)
    decreases |ops|
  {
    ops == [] ||
    (&& !BansTooSoon(c, s, tr, ops[0].0, ops[0].1, k)
     && NeverTooSoon(c, Step(c, s, ops[0].0, ops[0].1), TrackStep(c, s, tr, ops[0].0, ops[0].1, k), ops[1..], k))
  }

  lemma RecordStep(c: Config, s: State, tr: Track, op: Op, now: int, k: string)
    requires Inv(c, s, now) && s.bans.Size() <= c.maxKeys && Remembers(c, s, tr, now, k)
    ensures var t, next := Step(c, s, op, now), TrackStep(c, s, tr, op, now, k);
            && t.bans.Size() <= c.maxKeys
            && (Escalates(c, next.log) <==> !BansTooSoon(c, s, tr, op, now, k))
            && (!BansTooSoon(c, s, tr, op, now, k) ==> Remembers(c, t, next, now, k))
  {
    hide Inv, BanMs, Asked, Failed, ReachesLimit, Escalates;
    MapsValid(c, s, now);
    NoBansEscalate(c);
    BanAfter(c, s, op, now, k);
    if op == Fail(k) && ReachesLimit(c, s, k, now) { BanStep(c, s, tr, now, k); }
  }

  /** A failure at the limit: its ban has the length due next and starts after the last one, or it comes too soon. */
  lemma BanStep(c: Config, s: State, tr: Track, now: int, k: string)
    requires Inv(c, s, now) && Remembers(c, s, tr, now, k) && ReachesLimit(c, s, k, now)
    ensures var level := LevelOf(s.bans, k) + 1;
            Escalates(c, tr.log + [BanRecord(now, BanMs(c, level))]) <==> !BansTooSoon(c, s, tr, Fail(k), now, k)
    ensures c.baseBanMs < c.maxBanMs && !BansTooSoon(c, s, tr, Fail(k), now, k) ==> LevelOf(s.bans, k) == |tr.log|
  {
    hide Inv, BanMs, ReachesLimit, Escalates;
    MapsValid(c, s, now);
    var level := LevelOf(s.bans, k) + 1;
    LogGrows(c, tr.log, BanRecord(now, BanMs(c, level)));
    if c.baseBanMs == c.maxBanMs { EqualLengths(c, level, |tr.log| + 1); }
    if tr.log != [] { FirstLength(c, |tr.log| + 1); }
  }

  lemma LaterRemembers(c: Config, s: State, tr: Track, now: int, later: int, k: string)
    requires Remembers(c, s, tr, now, k) && now <= later
    ensures Remembers(c, s, tr, later, k)
  {
  }

  /**
   The exact rule, for every run from every state that holds no more bans than the cap: after each step the
   bans of `k` since its last success have lengths min(maxBan, base), min(maxBan, 2 base), ... and never
   overlap, if and only if no failure at the limit comes too soon.
   */
  lemma {:induction false} BansEscalateExactly(c: Config, s: State, tr: Track, ops: seq<Timed>, now: int, k: string)
    requires Inv(c, s, now) && ClockFrom(ops, now) && s.bans.Size() <= c.maxKeys && Remembers(c, s, tr, now, k)
    ensures EscalatesThroughout(c, s, tr, ops, k) <==> NeverTooSoon(c, s, tr, ops, k)
    decreases |ops|
  {
    if ops != [] {
      hide Step, TrackStep, Inv, BansTooSoon, Remembers, Escalates;
      var op, t := ops[0].0, ops[0].1;
      InvLater(c, s, now, t);
      LaterRemembers(c, s, tr, now, t, k);
      RecordStep(c, s, tr, op, t, k);
      StepInv(c, s, op, t);
      var next := TrackStep(c, s, tr, op, t, k);
      if BansTooSoon(c, s, tr, op, t, k) {
        ThroughoutNow(c, Step(c, s, op, t), next, ops[1..], k);
      } else {
        BansEscalateExactly(c, Step(c, s, op, t), next, ops[1..], t, k);
      }
    }
    assert Escalates(c, tr.log);
  }

  lemma ThroughoutNow(c: Config, s: State, tr: Track, ops: seq<Timed>, k: string)
    ensures EscalatesThroughout(c, s, tr, ops, k) ==> Escalates(c, tr.log)
  {
  }

  /** The exact rule from a new limiter on, with no condition on the run but its clock. */
  lemma BansExactlyFromStart(c: Config, ops: seq<Timed>, k: string)
    requires c.Valid() && ClockFrom(ops, 0)
    ensures EscalatesThroughout(c, BLANK, Track([], false), ops, k) <==> NeverTooSoon(c, BLANK, Track([], false), ops, k)
  {
    BansEscalateExactly(c, BLANK, Track([], false), ops, 0, k);
  }

  // ---- Without eviction ----

  /** No failure at the limit is recorded for `k` while it is banned. */
  predicate NoFailureWhileBanned(c: Config, s: State, ops: seq<Timed>, k: string)
    decreases |ops|
  {
    ops == [] ||
    (&& !(ops[0].0 == Fail(k) && ReachesLimit(c, s, k, ops[0].1) && Active(s, k, ops[0].1))
     && NoFailureWhileBanned(c, Step(c, s, ops[0].0, ops[0].1), ops[1..], k))
  }

  /** With room for all IPs a ban is held as long as it is on the log. */
  lemma RoomyStep(c: Config, s: State, tr: Track, op: Op, now: int, k: string, ips: set<string>)
    requires Inv(c, s, now) && Roomy(c, s, ips) && InvolvesOnly(op, ips) && (tr.log != [] ==> s.bans.Has(k))
    ensures var t, next := Step(c, s, op, now), TrackStep(c, s, tr, op, now, k);
            Roomy(c, t, ips) && (next.log != [] ==> t.bans.Has(k))
  {
    hide Inv, BanMs, Asked, Failed, ReachesLimit, Removed, Distinct, Elements, Roomy;
    match op
    case Before(ip) => AskedRoomy(c, s, ip, now, ips);
    case Fail(ip) => FailedRoomy(c, s, ip, now, ips);
    case Success(ip) => SucceededRoomy(c, s, ip, ips);
    case Reset => SucceededRoomy(c, s, k, ips);
  }

  lemma {:induction false} RoomyNeverTooSoon(c: Config, s: State, tr: Track, ops: seq<Timed>, now: int, k: string,
                                             ips: set<string>)
    requires Inv(c, s, now) && ClockFrom(ops, now) && Roomy(c, s, ips) && (tr.log != [] ==> s.bans.Has(k))
    requires forall i :: 0 <= i < |ops| ==> InvolvesOnly(ops[i].0, ips)
    ensures NeverTooSoon(c, s, tr, ops, k) <==> NoFailureWhileBanned(c, s, ops, k)
    decreases |ops|
  {
    if ops != [] {
      hide Step, TrackStep, Inv, Roomy, ReachesLimit, InvolvesOnly;
      var op, t := ops[0].0, ops[0].1;
      InvLater(c, s, now, t);
      RoomyStep(c, s, tr, op, t, k, ips);
      StepInv(c, s, op, t);
      assert forall i :: 0 <= i < |ops[1..]| ==> ops[1..][i] == ops[i + 1];
      RoomyNeverTooSoon(c, Step(c, s, op, t), TrackStep(c, s, tr, op, t, k), ops[1..], t, k, ips);
    }
  }

  /**
   With at most `maxKeys` IPs: the bans of `k` escalate and never overlap, throughout the run, if and only
   if no failure at the limit is recorded for `k` while it is banned.
   */
  lemma RoomyBansExactly(c: Config, s: State, tr: Track, ops: seq<Timed>, now: int, k: string, ips: set<string>)
    requires Inv(c, s, now) && ClockFrom(ops, now) && Roomy(c, s, ips)
    requires Remembers(c, s, tr, now, k) && (tr.log != [] ==> s.bans.Has(k))
    requires forall i :: 0 <= i < |ops| ==> InvolvesOnly(ops[i].0, ips)
    ensures EscalatesThroughout(c, s, tr, ops, k) <==> NoFailureWhileBanned(c, s, ops, k)
  {
    hide EscalatesThroughout, NoFailureWhileBanned, NeverTooSoon, Remembers, Capped, Distinct, Elements;
    MapsValid(c, s, now);
    RoomySize(c, s, ips);
    BansEscalateExactly(c, s, tr, ops, now, k);
    RoomyNeverTooSoon(c, s, tr, ops, now, k, ips);
  }

  lemma RoomySize(c: Config, s: State, ips: set<string>)
    requires s.bans.Valid() && Roomy(c, s, ips)
    ensures s.bans.Size() <= c.maxKeys
  {
    DistinctFit(s.bans.keys, ips);
  }

  /** Sequential use records no failure during a ban. */
  lemma {:induction false} SequentialNotBanned(c: Config, s: State, tr: Track, ops: seq<Timed>, now: int, k: string)
    requires Inv(c, s, now) && ClockFrom(ops, now) && s.bans.Size() <= c.maxKeys
    requires (tr.admitted ==> !Active(s, k, now)) && Sequential(c, s, tr, ops, k)
    ensures NoFailureWhileBanned(c, s, ops, k)
    decreases |ops|
  {
    if ops != [] {
      hide Inv, ReachesLimit, Step, BanMs, Asked, Failed;
      var op, t := ops[0].0, ops[0].1;
      InvLater(c, s, now, t);
      BanAfter(c, s, op, t, k);
      AskedBans(c, s, k, t);
      MapsValid(c, s, t);
      StepInv(c, s, op, t);
      SequentialNotBanned(c, Step(c, s, op, t), TrackStep(c, s, tr, op, t, k), ops[1..], t, k);
    }
  }

  lemma {:induction false} ThroughoutLast(c: Config, s: State, tr: Track, ops: seq<Timed>, k: string)
    requires EscalatesThroughout(c, s, tr, ops, k)
    ensures Escalates(c, Tracked(c, s, tr, ops, k).log)
    decreases |ops|
  {
    if ops != [] {
      hide Step, TrackStep, Escalates;
      ThroughoutLast(c, Step(c, s, ops[0].0, ops[0].1), TrackStep(c, s, tr, ops[0].0, ops[0].1, k), ops[1..], k);
    }
  }

  /** So with at most `maxKeys` IPs and sequential use of `k` its bans escalate and never overlap, in every run. */
  lemma BansEscalate(c: Config, s: State, tr: Track, ops: seq<Timed>, now: int, k: string, ips: set<string>)
    requires Inv(c, s, now) && ClockFrom(ops, now) && Roomy(c, s, ips) && TrackOk(c, s, tr, now, k)
    requires forall i :: 0 <= i < |ops| ==> InvolvesOnly(ops[i].0, ips)
    requires Sequential(c, s, tr, ops, k)
    ensures Escalates(c, Tracked(c, s, tr, ops, k).log)
  {
    hide EscalatesThroughout, NoFailureWhileBanned, Tracked, Capped, Distinct, Elements;
    MapsValid(c, s, now);
    RoomySize(c, s, ips);
    RoomyBansExactly(c, s, tr, ops, now, k, ips);
    SequentialNotBanned(c, s, tr, ops, now, k);
    ThroughoutLast(c, s, tr, ops, k);
  }

  lemma BansEscalateFromStart(c: Config, ops: seq<Timed>, k: string, ips: set<string>)
    requires c.Valid() && ClockFrom(ops, 0) && |ips| <= c.maxKeys
    requires forall i :: 0 <= i < |ops| ==> InvolvesOnly(ops[i].0, ips)
    requires Sequential(c, BLANK, Track([], false), ops, k)
    ensures Escalates(c, Tracked(c, BLANK, Track([], false), ops, k).log)
  {
    BlankRoomy(c, ips);
    BansEscalate(c, BLANK, Track([], false), ops, 0, k, ips);
  }

  function BanTotal(c: Config, n: nat): int {
    if n == 0 then 0 else BanTotal(c, n - 1) + BanMs(c, n)
  }

  /** So `n` bans take at least the sum of their lengths. */
  lemma {:induction false} BansTakeTime(c: Config, log: seq<BanRecord>)
    requires Escalates(c, log) && log != []
    ensures LastEnd(log) - log[0].start >= BanTotal(c, |log|)
    decreases |log|
  {
    if |log| == 1 {
      assert BanTotal(c, 1) == BanTotal(c, 0) + BanMs(c, 1);
    } else {
      BansTakeTime(c, log[..|log| - 1]);
    }
  }

  // ---- Without sequencing, bans do overlap ----

  /** Two checks let in before either fails: with one attempt allowed, the second failure bans again at once. */
  lemma InterleavedBansOverlap()
    ensures var c := Clamp(1, 60000, 300000, 3600000, 10000);
            var ops := [(Before("a"), 0), (Before("a"), 0), (Fail("a"), 0), (Fail("a"), 0)];
            var log := Tracked(c, BLANK, Track([], false), ops, "a").log;
            log == [BanRecord(0, 300000), BanRecord(0, 600000)] && !Escalates(c, log)
  {
    var c := Clamp(1, 60000, 300000, 3600000, 10000);
    var b, f := (Before("a"), 0), (Fail("a"), 0);
    assert Asked(c, BLANK, "a", 0) == (BLANK, Allowed);
    var one := State(EmptyMap(), Map(["a"], map["a" := Ban(300000, 1)]));
    var two := State(EmptyMap(), Map(["a"], map["a" := Ban(600000, 2)]));
    assert Pow2(1) == 2 && Pow2(0) == 1;
    OneAttemptFails(c, BLANK, one);
    OneAttemptFails(c, one, two);
    var t0, t1 := Track([], true), Track([BanRecord(0, 300000)], false);
    var t2 := Track([BanRecord(0, 300000), BanRecord(0, 600000)], false);
    assert [b, b, f, f][1..] == [b, f, f] && [b, f, f][1..] == [f, f] && [f, f][1..] == [f];
    assert [] + [BanRecord(0, 300000)] == t1.log && t1.log + [BanRecord(0, 600000)] == t2.log;
    assert TrackStep(c, BLANK, t0, Fail("a"), 0, "a") == t1;
    assert TrackStep(c, one, t1, Fail("a"), 0, "a") == t2;
    assert Tracked(c, two, t2, [], "a") == t2;
    assert Tracked(c, one, t1, [f], "a") == t2;
    assert Tracked(c, BLANK, t0, [f, f], "a") == t2;
    assert Tracked(c, BLANK, t0, [b, f, f], "a") == t2;
    assert t2.log[1].start < BanEnd(t2.log[0]);
  }

  lemma OneAttemptFails(c: Config, s: State, t: State)
    requires c == Clamp(1, 60000, 300000, 3600000, 10000) && s.failures == EmptyMap()
    requires s.bans.keys == (if s.bans.Has("a") then ["a"] else []) && t.failures == EmptyMap()
    requires var level := LevelOf(s.bans, "a") + 1;
             t.bans == Map(["a"], s.bans.vals["a" := Ban(BanMs(c, level), level)])
    ensures Failed(c, s, "a", 0) == t && ReachesLimit(c, s, "a", 0)
  {
    assert [] + [0] == [0];
    assert EmptyMap<string, seq<int>>().Set("a", [0]).Delete("a") == EmptyMap<string, seq<int>>() by {
      assert Removed(["a"], "a") == [];
    }
  }

  // ---- The limiter itself ----

  /** Drop the keys inserted first once a map exceeds the cap. */
  method CapMap<V>(m: Map<string, V>, maxKeys: int) returns (r: Map<string, V>)
    requires maxKeys >= 0
    ensures r == Capped(m, maxKeys)
  {
    r := m;
    if m.Size() > maxKeys {
      var overflow := m.Size() - maxKeys;
      var removed := 0;
      while removed < overflow
        invariant 0 <= removed <= overflow
        invariant DropKeys(m, m.keys[..overflow]) == DropKeys(r, m.keys[removed..overflow])
      {
        assert m.keys[removed..overflow][1..] == m.keys[removed + 1..overflow];
        r := r.Delete(m.keys[removed]);
        removed := removed + 1;
      }
    }
  }

  /** The shifting loop that both `beforeAuth` and `recordFailure` run on a failure list. */
  method ShiftOld(times: seq<int>, cutoff: int) returns (r: seq<int>)
    ensures r == DropOld(times, cutoff)
  {
    r := times;
    while |r| > 0 && r[0] <= cutoff
      invariant DropOld(times, cutoff) == DropOld(r, cutoff)
    {
      r := r[1..];
    }
  }

  class WsAuthRateLimiter {
    const c: Config
    var failures: Map<string, seq<int>>
    var bans: Map<string, Ban>

    ghost function St(): State
      reads this
    {
      State(failures, bans)
    }

    constructor (maxAttempts: int, windowMs: int, baseBanMs: int, maxBanMs: int, maxKeys: int)
      ensures c == Clamp(maxAttempts, windowMs, baseBanMs, maxBanMs, maxKeys) && St() == BLANK
    {
      c := Clamp(maxAttempts, windowMs, baseBanMs, maxBanMs, maxKeys);
      failures, bans := EmptyMap(), EmptyMap();
    }

    method BeforeAuth(ip: string, now: int) returns (d: Decision)
      requires c.Valid()
      modifies this
      ensures (St(), d) == Asked(c, old(St()), ip, now)
    {
      hide BanMs, DropOld, Removed, Evicted, CeilDiv;
      if bans.Has(ip) && bans.vals[ip].until > now {
        return Denied(CeilDiv(bans.vals[ip].until - now, 1000), Banned);
      }
      if bans.Has(ip) {
        var level := bans.vals[ip].level;
        bans := bans.Delete(ip);
        bans := bans.Set(ip, Ban(0, level));
      }
      if failures.Has(ip) {
        var recent := ShiftOld(failures.vals[ip], now - c.windowMs);
        failures := failures.Set(ip, recent);
        if |recent| >= c.maxAttempts {
          var level := LevelOf(bans, ip) + 1;
          var banMs := BanMs(c, level);
          bans := bans.Set(ip, Ban(now + banMs, level));
          failures := failures.Delete(ip);
          EvictIfNeeded();
          return Denied(CeilDiv(banMs, 1000), RateLimited);
        }
      }
      return Allowed;
    }

    method RecordFailure(ip: string, now: int)
      requires c.Valid()
      modifies this
      ensures St() == Failed(c, old(St()), ip, now)
    {
      hide BanMs, DropOld, Removed, Evicted;
      var times: seq<int> := [];
      if failures.Has(ip) { times := failures.vals[ip]; }
      times := ShiftOld(times, now - c.windowMs);
      times := times + [now];
      failures := failures.Set(ip, times);
      if |times| >= c.maxAttempts {
        var level := LevelOf(bans, ip) + 1;
        bans := bans.Set(ip, Ban(now + BanMs(c, level), level));
        failures := failures.Delete(ip);
      }
      EvictIfNeeded();
    }

    method RecordSuccess(ip: string)
      modifies this
      ensures St() == Succeeded(old(St()), ip)
    {
      failures := failures.Delete(ip);
      bans := bans.Delete(ip);
    }

    method ResetAll()
      modifies this
      ensures St() == BLANK
    {
      failures := EmptyMap();
      bans := EmptyMap();
    }

    method EvictIfNeeded()
      requires c.Valid()
      modifies this
      ensures St() == Evicted(c, old(St()))
    {
      failures := CapMap(failures, c.maxKeys);
      bans := CapMap(bans, c.maxKeys);
    }

    /** Counts from the newest failure back to the first old one. */
    method GetFailureCount(ip: string, now: int) returns (live: nat)
      ensures live == if failures.Has(ip) then NewestRun(failures.vals[ip], now - c.windowMs) else 0
    {
      if !failures.Has(ip) { return 0; }
      var times, cutoff := failures.vals[ip], now - c.windowMs;
      live := 0;
      var i := |times|;
      assert times[..i] == times;
      while i > 0 && times[i - 1] > cutoff
        invariant 0 <= i <= |times| && NewestRun(times, cutoff) == live + NewestRun(times[..i], cutoff)
      {
        assert times[..i][..i - 1] == times[..i - 1];
        live := live + 1;
        i := i - 1;
      }
    }
  }

  /** How many of the newest times in a row are later than the cutoff. */
  function NewestRun(times: seq<int>, cutoff: int): nat {
    if times == [] || times[|times| - 1] <= cutoff then 0 else 1 + NewestRun(times[..|times| - 1], cutoff)
  }

  /** On an ascending list, which every stored list is, that is what the window retains. */
  lemma {:induction false} NewestRunIsWindow(times: seq<int>, cutoff: int)
    requires Ascending(times)
    ensures NewestRun(times, cutoff) == |DropOld(times, cutoff)|
  {
    if times != [] {
      var init, last := times[..|times| - 1], times[|times| - 1];
      NewestRunIsWindow(init, cutoff);
      DropOldSnoc(init, last, cutoff);
      assert times == init + [last];
      if last <= cutoff { AllOld(init, last, cutoff); }
    }
  }

  lemma {:induction false} DropOldSnoc(times: seq<int>, last: int, cutoff: int)
    ensures DropOld(times + [last], cutoff) ==
            if DropOld(times, cutoff) == [] && last <= cutoff then [] else DropOld(times, cutoff) + [last]
  {
    if times == [] {
      assert times + [last] == [last];
    } else {
      assert (times + [last])[1..] == times[1..] + [last];
      if times[0] <= cutoff { DropOldSnoc(times[1..], last, cutoff); }
    }
  }

  lemma {:induction false} AllOld(times: seq<int>, last: int, cutoff: int)
    requires Ascending(times + [last]) && last <= cutoff
    ensures DropOld(times, cutoff) == []
  {
    if times != [] {
      assert (times + [last])[0] <= (times + [last])[|times|];
      assert (times + [last])[1..] == times[1..] + [last];
      AllOld(times[1..], last, cutoff);
    }
  }
}
