/**
 The per-platform outbound rate limiter (packages/gateway/src/platform-rate-limiter.ts). The clock
 is a parameter of every call.
 */
module PlatformRateLimiter {
  import opened TimeWindow

  const WINDOW_MS := 60000

  /** Messages per minute; platforms that are not listed get the default. */
  function Limit(platform: string): nat {
    match platform
    case "telegram" => 20
    case "slack" => 50
    case "discord" => 30
    case "whatsapp" => 40
    case "matrix" => 30
    case "sms" => 10
    case "email" => 15
    case "signal" => 20
    case _ => 30
  }

  type Stamps = map<string, seq<int>>

  function StampsOf(m: Stamps, platform: string): seq<int> {
    if platform in m then m[platform] else []
  }

  function Checked(m: Stamps, platform: string, now: int): (Stamps, bool) {
    var times := DropOld(StampsOf(m, platform), now - WINDOW_MS);
    if |times| >= Limit(platform) then (m[platform := times], false)
    else (m[platform := times + [now]], true)
  }

  function RemainingAt(m: Stamps, platform: string, now: int): (Stamps, int) {
    if platform !in m then (m, Limit(platform))
    else
      var times := DropOld(m[platform], now - WINDOW_MS);
      var left := Limit(platform) - |times|;
      (m[platform := times], if left > 0 then left else 0)
  }

  // ---- Runs, with the history of granted sends ----

  datatype Op = Check(platform: string) | Remaining(platform: string)
  type Timed = (Op, int)

  function Step(m: Stamps, op: Op, now: int): Stamps {
    match op
    case Check(p) => Checked(m, p, now).0
    case Remaining(p) => RemainingAt(m, p, now).0
  }

  function After(m: Stamps, ops: seq<Timed>): Stamps {
    if ops == [] then m
    else Step(After(m, ops[..|ops| - 1]), ops[|ops| - 1].0, ops[|ops| - 1].1)
  }

  /** The times at which sends on platform `p` were granted, from an empty limiter on. */
  function Granted(ops: seq<Timed>, p: string): seq<int> {
    if ops == [] then []
    else
      var before := ops[..|ops| - 1];
      var (op, now) := ops[|ops| - 1];
      if op == Check(p) && Checked(After(map[], before), p, now).1 then Granted(before, p) + [now]
      else Granted(before, p)
  }

  predicate Clock(ops: seq<Timed>) {
    forall i, j :: 0 <= i < j < |ops| ==> ops[i].1 <= ops[j].1
  }

  /** How many sends were granted in the minute that ends at `t`. */
  function LastMinute(history: seq<int>, t: int): nat {
    CountIn(history, t - WINDOW_MS, t)
  }

  ghost predicate NeverOver(history: seq<int>, limit: nat) {
    forall t :: LastMinute(history, t) <= limit
  }

  /** A grant at `now` keeps every window within the limit when the last minute has room. */
  lemma GrantKeepsLimit(history: seq<int>, now: int, limit: nat)
    requires NeverOver(history, limit) && AllAtMost(history, now)
    requires LastMinute(history, now) < limit
    ensures NeverOver(history + [now], limit)
  {
    forall t ensures LastMinute(history + [now], t) <= limit {
      CountInSnoc(history, now, t - WINDOW_MS, t);
      assert LastMinute(history, t) <= limit;
      if t >= now { LaterWindow(history, now, t); }
    }
  }

  /** A window that ends later holds no more of a history that stops at `now`. */
  lemma {:induction false} LaterWindow(history: seq<int>, now: int, t: int)
    requires now <= t && AllAtMost(history, now)
    ensures LastMinute(history, t) <= LastMinute(history, now)
  {
    if history != [] { LaterWindow(history[..|history| - 1], now, t); }
  }

  /** One call keeps the stored stamps recent and the history of grants within the limit. */
  lemma GrantStep(m: Stamps, op: Op, t: int, p: string, history: seq<int>, now: int)
    requires Recent(StampsOf(m, p), history, t, WINDOW_MS) && NeverOver(history, Limit(p)) && t <= now
    ensures var more := if op == Check(p) && Checked(m, p, t).1 then history + [t] else history;
            Recent(StampsOf(Step(m, op, t), p), more, now, WINDOW_MS) && NeverOver(more, Limit(p))
  {
    hide Recent, Limit, DropOld, NeverOver, CountIn;
    var times := StampsOf(m, p);
    var kept := DropOld(times, t - WINDOW_MS);
    PruneRecent(times, history, t, t, WINDOW_MS);
    StepStamps(m, op, t, p);
    if op == Check(p) && Checked(m, p, t).1 {
      AtMostNow(times, history, t);
      GrowRecent(kept, history, t, WINDOW_MS);
      GrantKeepsLimit(history, t, Limit(p));
      LaterRecent(kept + [t], history + [t], t, now, WINDOW_MS);
    } else {
      LaterRecent(kept, history, t, now, WINDOW_MS);
      LaterRecent(times, history, t, now, WINDOW_MS);
    }
  }

  lemma AtMostNow(times: seq<int>, history: seq<int>, now: int)
    requires Recent(times, history, now, WINDOW_MS)
    ensures AllAtMost(history, now)
  {
  }

  /** In every run with a nondecreasing clock the stored stamps are the recent part of the grants. */
  lemma {:induction false} RunInvariant(ops: seq<Timed>, p: string, now: int)
    requires Clock(ops) && (ops != [] ==> ops[|ops| - 1].1 <= now)
    ensures Recent(StampsOf(After(map[], ops), p), Granted(ops, p), now, WINDOW_MS)
    ensures NeverOver(Granted(ops, p), Limit(p))
  {
    hide Recent, Limit, Checked, Step;
    if ops == [] {
      NothingRecent(now);
    } else {
      hide NeverOver;
      var before, last := ops[..|ops| - 1], ops[|ops| - 1];
      RunInvariant(before, p, last.1);
      GrantStep(After(map[], before), last.0, last.1, p, Granted(before, p), now);
    }
  }

  lemma NothingRecent(now: int)
    ensures Recent([], [], now, WINDOW_MS) && LastMinute([], now) == 0
  {
  }

  /** What one call does to the stamps of `p`. */
  lemma StepStamps(m: Stamps, op: Op, now: int, p: string)
    ensures var kept := DropOld(StampsOf(m, p), now - WINDOW_MS);
            var times := StampsOf(Step(m, op, now), p);
            if op.platform != p then times == StampsOf(m, p)
            else if op == Check(p) && Checked(m, p, now).1 then times == kept + [now]
            else times == kept
  {
  }

  /** At most `Limit(p)` sends are granted in any minute, wherever the minute begins. */
  lemma WindowLimit(ops: seq<Timed>, p: string, t: int)
    requires Clock(ops)
    ensures LastMinute(Granted(ops, p), t) <= Limit(p)
  {
    RunInvariant(ops, p, if ops == [] then 0 else ops[|ops| - 1].1);
  }

  /**
   The limiter is exact: it grants just when fewer than `Limit(p)` sends were granted in the last
   minute, reports precisely what is left, and grants just when something is left.
   */
  lemma ExactDecision(ops: seq<Timed>, p: string, now: int)
    requires Clock(ops) && (ops != [] ==> ops[|ops| - 1].1 <= now)
    ensures var m := After(map[], ops);
            var used := LastMinute(Granted(ops, p), now);
            && (Checked(m, p, now).1 <==> used < Limit(p))
            && RemainingAt(m, p, now).1 == Limit(p) - used
            && (Checked(m, p, now).1 <==> RemainingAt(m, p, now).1 > 0)
  {
    hide Recent, Limit, Checked, RemainingAt, DropOld;
    RunInvariant(ops, p, now);
    var m := After(map[], ops);
    PruneRecent(StampsOf(m, p), Granted(ops, p), now, now, WINDOW_MS);
    assert LastMinute(Granted(ops, p), now) <= Limit(p);
    Decisions(m, p, now);
  }

  lemma Decisions(m: Stamps, p: string, now: int)
    ensures var kept := |DropOld(StampsOf(m, p), now - WINDOW_MS)|;
            && (Checked(m, p, now).1 <==> kept < Limit(p))
            && RemainingAt(m, p, now).1 == if kept < Limit(p) then Limit(p) - kept else 0
  {
  }

  // ---- The limiter itself ----

  class RateLimiter {
    var timestamps: Stamps

    constructor ()
      ensures timestamps == map[]
    {
      timestamps := map[];
    }

    /** Locate the first unexpired stamp and cut off everything before it. */
    static method PruneExpired(arr: seq<int>, cutoff: int) returns (r: seq<int>)
      ensures r == DropOld(arr, cutoff)
    {
      var i := 0;
      assert arr[0..] == arr;
      while i < |arr| && arr[i] <= cutoff
        invariant 0 <= i <= |arr|
        invariant DropOld(arr, cutoff) == DropOld(arr[i..], cutoff)
      {
        assert arr[i..][1..] == arr[i + 1..];
        i := i + 1;
      }
      r := arr[i..];
    }

    method Check(platform: string, now: int) returns (ok: bool)
      modifies this
      ensures (timestamps, ok) == Checked(old(timestamps), platform, now)
    {
      hide Limit, DropOld;
      var limit := Limit(platform);
      var arr: seq<int> := [];
      if platform in timestamps { arr := timestamps[platform]; }
      arr := PruneExpired(arr, now - WINDOW_MS);
      timestamps := timestamps[platform := arr];
      if |arr| >= limit { return false; }
      timestamps := timestamps[platform := arr + [now]];
      assert timestamps == old(timestamps)[platform := arr + [now]];
      return true;
    }

    method Remaining(platform: string, now: int) returns (left: int)
      modifies this
      ensures (timestamps, left) == RemainingAt(old(timestamps), platform, now)
    {
      var limit := Limit(platform);
      if platform !in timestamps { return limit; }
      var arr := PruneExpired(timestamps[platform], now - WINDOW_MS);
      timestamps := timestamps[platform := arr];
      return if limit - |arr| > 0 then limit - |arr| else 0;
    }
  }
}
