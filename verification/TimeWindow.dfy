/** Ascending timestamp lists and what is left of them after a cutoff. */
module TimeWindow {
  predicate Ascending(times: seq<int>) {
    forall i, j :: 0 <= i < j < |times| ==> times[i] <= times[j]
  }

  /** The list after dropping the times at or before the cutoff from the front. */
  function DropOld(times: seq<int>, cutoff: int): (r: seq<int>)
    ensures |r| <= |times|
  {
    if times != [] && times[0] <= cutoff then DropOld(times[1..], cutoff) else times
  }

  /** How many times fall into the half-open window (lo, hi]. */
  function CountIn(times: seq<int>, lo: int, hi: int): nat {
    if times == [] then 0
    else CountIn(times[..|times| - 1], lo, hi) + (if lo < times[|times| - 1] <= hi then 1 else 0)
  }

  lemma CountInSnoc(times: seq<int>, t: int, lo: int, hi: int)
    ensures CountIn(times + [t], lo, hi) == CountIn(times, lo, hi) + (if lo < t <= hi then 1 else 0)
  {
    assert (times + [t])[..|times|] == times;
  }

  lemma {:induction false} CountInConcat(a: seq<int>, b: seq<int>, lo: int, hi: int)
    ensures CountIn(a + b, lo, hi) == CountIn(a, lo, hi) + CountIn(b, lo, hi)
  {
    if b == [] {
      assert a + b == a;
    } else {
      CountInConcat(a, b[..|b| - 1], lo, hi);
      assert (a + b)[..|a + b| - 1] == a + b[..|b| - 1];
    }
  }

  predicate AllAtMost(times: seq<int>, t: int) {
    forall i :: 0 <= i < |times| ==> times[i] <= t
  }

  predicate AllAfter(times: seq<int>, t: int) {
    forall i :: 0 <= i < |times| ==> t < times[i]
  }

  lemma {:induction false} CountInNone(times: seq<int>, lo: int, hi: int)
    requires AllAtMost(times, lo)
    ensures CountIn(times, lo, hi) == 0
  {
    if times != [] { CountInNone(times[..|times| - 1], lo, hi); }
  }

  lemma {:induction false} CountInAll(times: seq<int>, lo: int, hi: int)
    requires AllAfter(times, lo) && AllAtMost(times, hi)
    ensures CountIn(times, lo, hi) == |times|
  {
    if times != [] { CountInAll(times[..|times| - 1], lo, hi); }
  }

  lemma AscendingParts(a: seq<int>, b: seq<int>)
    requires Ascending(a + b)
    ensures Ascending(a) && Ascending(b)
  {
    assert forall i :: 0 <= i < |a| ==> (a + b)[i] == a[i];
    assert forall i :: 0 <= i < |b| ==> (a + b)[|a| + i] == b[i];
  }

  lemma AtMostParts(a: seq<int>, b: seq<int>, t: int)
    ensures AllAtMost(a + b, t) <==> AllAtMost(a, t) && AllAtMost(b, t)
  {
    assert forall i :: 0 <= i < |a| ==> (a + b)[i] == a[i];
    assert forall i :: 0 <= i < |b| ==> (a + b)[|a| + i] == b[i];
  }

  /** The part that `DropOld` drops. */
  function Dropped(times: seq<int>, cutoff: int): seq<int> {
    if times != [] && times[0] <= cutoff then [times[0]] + Dropped(times[1..], cutoff) else []
  }

  /** What `DropOld` drops is old, what it keeps of an ascending list is not. */
  lemma {:induction false} DropOldSplits(times: seq<int>, cutoff: int)
    requires Ascending(times)
    ensures times == Dropped(times, cutoff) + DropOld(times, cutoff)
    ensures AllAtMost(Dropped(times, cutoff), cutoff) && AllAfter(DropOld(times, cutoff), cutoff)
    decreases |times|
  {
    if times != [] {
      assert times == [times[0]] + times[1..];
      AscendingParts([times[0]], times[1..]);
      if times[0] <= cutoff {
        hide Ascending, AllAtMost, AllAfter;
        DropOldSplits(times[1..], cutoff);
        DroppedOne(times, cutoff);
      }
    }
  }

  lemma DroppedOne(times: seq<int>, cutoff: int)
    requires times != [] && times[0] <= cutoff
    requires times[1..] == Dropped(times[1..], cutoff) + DropOld(times[1..], cutoff)
    requires AllAtMost(Dropped(times[1..], cutoff), cutoff)
    ensures times == Dropped(times, cutoff) + DropOld(times, cutoff)
    ensures AllAtMost(Dropped(times, cutoff), cutoff)
  {
    assert times == [times[0]] + times[1..];
    AtMostParts([times[0]], Dropped(times[1..], cutoff), cutoff);
  }

  // ---- A stored list against the whole history ----

  /** The stored list is the recent part of the history: everything missing from it has left the window. */
  predicate Recent(times: seq<int>, history: seq<int>, now: int, window: int) {
    && Ascending(history) && AllAtMost(history, now)
    && |times| <= |history|
    && var gone := history[..|history| - |times|];
       history == gone + times && AllAtMost(gone, now - window)
  }

  /** Pruning at a later time keeps the list recent and leaves exactly the window of the history. */
  lemma PruneRecent(times: seq<int>, history: seq<int>, before: int, now: int, window: int)
    requires Recent(times, history, before, window) && before <= now
    ensures var kept := DropOld(times, now - window);
            Recent(kept, history, now, window) && |kept| == CountIn(history, now - window, now)
  {
    hide Ascending, Dropped, DropOld, CountIn;
    var cutoff := now - window;
    var gone := history[..|history| - |times|];
    AscendingParts(gone, times);
    DropOldSplits(times, cutoff);
    var more, kept := Dropped(times, cutoff), DropOld(times, cutoff);
    assert history == gone + (more + kept) == (gone + more) + kept;
    SplitRecent(gone + more, kept, now, window);
  }

  /** A history that splits into times inside the window and older ones. */
  lemma SplitRecent(past: seq<int>, kept: seq<int>, now: int, window: int)
    requires Ascending(past + kept) && AllAtMost(past + kept, now)
    requires AllAtMost(past, now - window) && AllAfter(kept, now - window)
    ensures Recent(kept, past + kept, now, window) && CountIn(past + kept, now - window, now) == |kept|
  {
    hide CountIn, Ascending, AllAtMost, AllAfter;
    assert (past + kept)[..|past + kept| - |kept|] == past;
    AtMostParts(past, kept, now);
    CountInConcat(past, kept, now - window, now);
    CountInNone(past, now - window, now);
    CountInAll(kept, now - window, now);
  }

  lemma GrowRecent(times: seq<int>, history: seq<int>, now: int, window: int)
    requires Recent(times, history, now, window)
    ensures Recent(times + [now], history + [now], now, window)
  {
    var gone := history[..|history| - |times|];
    assert (history + [now])[..|history| - |times|] == gone;
    assert history + [now] == gone + (times + [now]);
    AscendingSnoc(history, now);
  }

  lemma AscendingSnoc(history: seq<int>, now: int)
    requires Ascending(history) && AllAtMost(history, now)
    ensures Ascending(history + [now])
  {
  }

  lemma LaterRecent(times: seq<int>, history: seq<int>, before: int, now: int, window: int)
    requires Recent(times, history, before, window) && before <= now
    ensures Recent(times, history, now, window)
  {
  }
}
