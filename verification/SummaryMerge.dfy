/**
 Merging structured conversation summaries (`dedupe`, `mergeStructuredSummaries`,
 packages/core/src/structured-compression.ts:126-128, 164-190) and the head/tail protection of
 `compressWithStructure` (:192-262).

 Merging drops an open item as soon as it contains, or is contained in, some resolved item. The
 main result is that the order in which merges are grouped never matters, as exact sequences.
 */
module SummaryMerge {
  import Text

  datatype Summary = Summary(resolved: seq<string>, pending: seq<string>, remainingWork: seq<string>,
                             keyFacts: seq<string>, toolsUsed: seq<string>)

  const NOTHING := Summary([], [], [], [], [])

  /** `[...new Set(arr)]`: the first occurrence of each item, in order. */
  function Dedupe(s: seq<string>): seq<string> {
    if s == [] then []
    else
      var d := Dedupe(s[..|s| - 1]);
      if s[|s| - 1] in d then d else d + [s[|s| - 1]]
  }

  predicate IsResolved(item: string, resolved: set<string>) {
    exists r :: r in resolved && (Text.Contains(item, r) || Text.Contains(r, item))
  }

  /** The items that no resolved item touches. */
  function Open(s: seq<string>, resolved: set<string>): seq<string> {
    if s == [] then []
    else Open(s[..|s| - 1], resolved) + (if IsResolved(s[|s| - 1], resolved) then [] else [s[|s| - 1]])
  }

  function Items(s: seq<string>): set<string> { set x | x in s }

  function MergeOpen(a: seq<string>, b: seq<string>, resolved: set<string>): seq<string> {
    Open(Dedupe(a + b), resolved)
  }

  function Merge(existing: Summary, incoming: Summary): Summary {
    var resolvedSet := Dedupe(existing.resolved + incoming.resolved);
    var resolved := Items(resolvedSet);
    Summary(Dedupe(resolvedSet),
            MergeOpen(existing.pending, incoming.pending, resolved),
            MergeOpen(existing.remainingWork, incoming.remainingWork, resolved),
            Dedupe(existing.keyFacts + incoming.keyFacts),
            Dedupe(existing.toolsUsed + incoming.toolsUsed))
  }

  // ---- Deduplication ----

  lemma DedupeSnoc(s: seq<string>, x: string)
    ensures Dedupe(s + [x]) == if x in Dedupe(s) then Dedupe(s) else Dedupe(s) + [x]
  {
    assert (s + [x])[..|s|] == s;
  }

  lemma {:induction false} DedupeItems(s: seq<string>)
    ensures Items(Dedupe(s)) == Items(s)
  {
    if s != [] {
      var front, x := s[..|s| - 1], s[|s| - 1];
      DedupeItems(front);
      assert s == front + [x];
      assert Items(s) == Items(front) + {x};
      assert Items(Dedupe(front) + [x]) == Items(Dedupe(front)) + {x};
      assert x in Dedupe(front) <==> x in Items(Dedupe(front));
    }
  }

  lemma DedupeHas(s: seq<string>, x: string)
    ensures x in Dedupe(s) <==> x in s
  {
    DedupeItems(s);
    assert x in Dedupe(s) <==> x in Items(Dedupe(s));
    assert x in s <==> x in Items(s);
  }

  lemma {:induction false} DedupeHead(a: seq<string>, b: seq<string>)
    ensures Dedupe(Dedupe(a) + b) == Dedupe(a + b)
    decreases |a| + |b|, |b|
  {
    if b != [] {
      var front, x := b[..|b| - 1], b[|b| - 1];
      DedupeHead(a, front);
      assert a + b == (a + front) + [x] && Dedupe(a) + b == (Dedupe(a) + front) + [x];
      DedupeSnoc(a + front, x);
      DedupeSnoc(Dedupe(a) + front, x);
    } else if a != [] {
      assert a + b == a && Dedupe(a) + b == Dedupe(a);
      DedupeTwice(a);
    }
  }

  lemma {:induction false} DedupeTwice(a: seq<string>)
    ensures Dedupe(Dedupe(a)) == Dedupe(a)
    decreases |a|, 0
  {
    if a != [] {
      var front, x := a[..|a| - 1], a[|a| - 1];
      DedupeTwice(front);
      if x !in Dedupe(front) { DedupeSnoc(Dedupe(front), x); }
    }
  }

  lemma {:induction false} DedupeTail(a: seq<string>, b: seq<string>)
    ensures Dedupe(a + Dedupe(b)) == Dedupe(a + b)
  {
    if b != [] {
      var front, x := b[..|b| - 1], b[|b| - 1];
      DedupeTail(a, front);
      assert a + b == (a + front) + [x];
      DedupeSnoc(a + front, x);
      if x in Dedupe(front) {
        DedupeHas(front, x);
        DedupeHas(a + front, x);
      } else {
        assert a + Dedupe(b) == (a + Dedupe(front)) + [x];
        DedupeSnoc(a + Dedupe(front), x);
      }
    }
  }

  /** Items seen before add nothing. */
  lemma {:induction false} DedupeAbsorbs(a: seq<string>, b: seq<string>)
    requires Items(b) <= Items(a)
    ensures Dedupe(a + b) == Dedupe(a)
  {
    if b == [] {
      assert a + b == a;
    } else {
      var front, x := b[..|b| - 1], b[|b| - 1];
      assert b == front + [x] && x in Items(b);
      assert Items(b) == Items(front) + {x};
      DedupeAbsorbs(a, front);
      assert a + b == (a + front) + [x];
      DedupeSnoc(a + front, x);
      DedupeHas(a + front, x);
    }
  }

  // ---- The filter ----

  lemma {:induction false} OpenConcat(a: seq<string>, b: seq<string>, resolved: set<string>)
    ensures Open(a + b, resolved) == Open(a, resolved) + Open(b, resolved)
  {
    if b == [] {
      assert a + b == a;
    } else {
      OpenConcat(a, b[..|b| - 1], resolved);
      assert (a + b)[..|a + b| - 1] == a + b[..|b| - 1];
    }
  }

  lemma {:induction false} OpenHas(s: seq<string>, resolved: set<string>, x: string)
    ensures x in Open(s, resolved) <==> x in s && !IsResolved(x, resolved)
  {
    if s != [] {
      OpenHas(s[..|s| - 1], resolved, x);
      assert s == s[..|s| - 1] + [s[|s| - 1]];
    }
  }

  /** Deduplicating commutes with the filter. */
  lemma {:induction false} DedupeOpen(s: seq<string>, resolved: set<string>)
    ensures Open(Dedupe(s), resolved) == Dedupe(Open(s, resolved))
  {
    if s != [] {
      hide Open, Dedupe, IsResolved;
      var front, x := s[..|s| - 1], s[|s| - 1];
      DedupeOpen(front, resolved);
      assert s == front + [x];
      DedupeSnoc(front, x);
      OpenSnoc(front, x, resolved);
      OpenSnoc(Dedupe(front), x, resolved);
      DedupeSnoc(Open(front, resolved), x);
      DedupeHas(front, x);
      DedupeHas(Open(front, resolved), x);
      OpenHas(front, resolved, x);
    }
  }

  lemma OpenSnoc(s: seq<string>, x: string, resolved: set<string>)
    ensures Open(s + [x], resolved) == if IsResolved(x, resolved) then Open(s, resolved) else Open(s, resolved) + [x]
  {
    assert (s + [x])[..|s|] == s;
  }

  /** A larger resolved set filters more: filtering with a smaller one first changes nothing. */
  lemma {:induction false} OpenTwice(s: seq<string>, fewer: set<string>, more: set<string>)
    requires fewer <= more
    ensures Open(Open(s, fewer), more) == Open(s, more)
  {
    if s != [] {
      var front, x := s[..|s| - 1], s[|s| - 1];
      OpenTwice(front, fewer, more);
      assert IsResolved(x, fewer) ==> IsResolved(x, more);
      hide IsResolved;
      assert s == front + [x];
      OpenSnoc(front, x, fewer);
      OpenSnoc(front, x, more);
      OpenSnoc(Open(front, fewer), x, more);
    }
  }

  /** Merging open items in one go: filter everything, then deduplicate. */
  lemma MergeOpenIs(a: seq<string>, b: seq<string>, resolved: set<string>)
    ensures MergeOpen(a, b, resolved) == Dedupe(Open(a + b, resolved))
  {
    DedupeOpen(a + b, resolved);
  }

  /** Open items merged on the left, then once more with a larger resolved set. */
  lemma MergeOpenLeft(a: seq<string>, b: seq<string>, c: seq<string>, fewer: set<string>, more: set<string>)
    requires fewer <= more
    ensures MergeOpen(MergeOpen(a, b, fewer), c, more) == Dedupe(Open(a + b + c, more))
  {
    var ab := MergeOpen(a, b, fewer);
    MergeOpenIs(ab, c, more);
    OpenConcat(ab, c, more);
    OpenTwice(Dedupe(a + b), fewer, more);
    DedupeOpen(a + b, more);
    DedupeHead(Open(a + b, more), Open(c, more));
    OpenConcat(a + b, c, more);
  }

  lemma MergeOpenRight(a: seq<string>, b: seq<string>, c: seq<string>, fewer: set<string>, more: set<string>)
    requires fewer <= more
    ensures MergeOpen(a, MergeOpen(b, c, fewer), more) == Dedupe(Open(a + (b + c), more))
  {
    var bc := MergeOpen(b, c, fewer);
    MergeOpenIs(a, bc, more);
    OpenConcat(a, bc, more);
    OpenTwice(Dedupe(b + c), fewer, more);
    DedupeOpen(b + c, more);
    DedupeTail(Open(a, more), Open(b + c, more));
    OpenConcat(a, b + c, more);
  }

  lemma DedupeAssoc(a: seq<string>, b: seq<string>, c: seq<string>)
    ensures Dedupe(Dedupe(a + b) + c) == Dedupe(a + Dedupe(b + c))
  {
    hide Dedupe;
    DedupeHead(a + b, c);
    DedupeTail(a, b + c);
    assert (a + b) + c == a + (b + c);
  }

  lemma MergedResolved(a: seq<string>, b: seq<string>)
    ensures Dedupe(Dedupe(a + b)) == Dedupe(a + b)
    ensures Items(Dedupe(a + b)) == Items(a) + Items(b)
  {
    DedupeTwice(a + b);
    DedupeItems(a + b);
  }

  /** Merging is associative, as exact sequences. */
  lemma MergeAssociative(a: Summary, b: Summary, c: Summary)
    ensures Merge(Merge(a, b), c) == Merge(a, Merge(b, c))
  {
    hide Dedupe, Open, MergeOpen, Items;
    MergedResolved(a.resolved, b.resolved);
    MergedResolved(b.resolved, c.resolved);
    MergedResolved(Dedupe(a.resolved + b.resolved), c.resolved);
    MergedResolved(a.resolved, Dedupe(b.resolved + c.resolved));
    DedupeAssoc(a.resolved, b.resolved, c.resolved);
    DedupeAssoc(a.keyFacts, b.keyFacts, c.keyFacts);
    DedupeAssoc(a.toolsUsed, b.toolsUsed, c.toolsUsed);
    var ab, bc := Items(a.resolved) + Items(b.resolved), Items(b.resolved) + Items(c.resolved);
    var all := ab + Items(c.resolved);
    assert Items(a.resolved) + bc == all;
    MergeOpenLeft(a.pending, b.pending, c.pending, ab, all);
    MergeOpenRight(a.pending, b.pending, c.pending, bc, all);
    assert a.pending + b.pending + c.pending == a.pending + (b.pending + c.pending);
    MergeOpenLeft(a.remainingWork, b.remainingWork, c.remainingWork, ab, all);
    MergeOpenRight(a.remainingWork, b.remainingWork, c.remainingWork, bc, all);
    assert a.remainingWork + b.remainingWork + c.remainingWork == a.remainingWork + (b.remainingWork + c.remainingWork);
  }

  lemma OpenAbsorbs(a: seq<string>, b: seq<string>, c: seq<string>, resolved: set<string>)
    requires Items(c) <= Items(a + b)
    ensures MergeOpen(MergeOpen(a, b, resolved), c, resolved) == MergeOpen(a, b, resolved)
  {
    MergeOpenLeft(a, b, c, resolved, resolved);
    MergeOpenIs(a, b, resolved);
    OpenConcat(a + b, c, resolved);
    forall x | x in Open(c, resolved) ensures x in Open(a + b, resolved) {
      OpenHas(c, resolved, x);
      OpenHas(a + b, resolved, x);
      assert x in Items(c);
    }
    DedupeAbsorbs(Open(a + b, resolved), Open(c, resolved));
  }

  /** Merging a summary that already went in, on either side, changes nothing. */
  lemma MergeAgain(a: Summary, b: Summary, again: Summary)
    requires again == a || again == b
    ensures Merge(Merge(a, b), again) == Merge(a, b)
  {
    hide Dedupe, Open, MergeOpen;
    MergedResolved(a.resolved, b.resolved);
    MergedResolved(Dedupe(a.resolved + b.resolved), again.resolved);
    assert Items(a.resolved) + Items(b.resolved) + Items(again.resolved) == Items(a.resolved) + Items(b.resolved);
    DedupeSeen(a.resolved, b.resolved, again.resolved);
    DedupeSeen(a.keyFacts, b.keyFacts, again.keyFacts);
    DedupeSeen(a.toolsUsed, b.toolsUsed, again.toolsUsed);
    OpenAbsorbs(a.pending, b.pending, again.pending, Items(a.resolved) + Items(b.resolved));
    OpenAbsorbs(a.remainingWork, b.remainingWork, again.remainingWork, Items(a.resolved) + Items(b.resolved));
  }

  lemma DedupeSeen(a: seq<string>, b: seq<string>, c: seq<string>)
    requires Items(c) <= Items(a + b)
    ensures Dedupe(Dedupe(a + b) + c) == Dedupe(a + b)
  {
    DedupeHead(a + b, c);
    DedupeAbsorbs(a + b, c);
  }

  /** The empty summary is neutral on everything a merge has produced. */
  lemma MergeNothing(a: Summary, b: Summary)
    ensures Merge(Merge(a, b), NOTHING) == Merge(a, b) && Merge(NOTHING, Merge(a, b)) == Merge(a, b)
  {
    hide Merge;
    MergeAssociative(NOTHING, a, b);
    NothingFirst(a, b);
    NothingLast(a, b);
  }

  lemma NothingLast(a: Summary, b: Summary)
    ensures Merge(Merge(a, b), NOTHING) == Merge(a, b)
  {
    hide Dedupe, Open, MergeOpen;
    MergedResolved(a.resolved, b.resolved);
    MergedResolved(Dedupe(a.resolved + b.resolved), []);
    assert Items(a.resolved) + Items(b.resolved) + Items([]) == Items(a.resolved) + Items(b.resolved);
    DedupeSeen(a.resolved, b.resolved, []);
    DedupeSeen(a.keyFacts, b.keyFacts, []);
    DedupeSeen(a.toolsUsed, b.toolsUsed, []);
    OpenAbsorbs(a.pending, b.pending, [], Items(a.resolved) + Items(b.resolved));
    OpenAbsorbs(a.remainingWork, b.remainingWork, [], Items(a.resolved) + Items(b.resolved));
  }

  lemma NothingFirst(a: Summary, b: Summary)
    ensures Merge(Merge(NOTHING, a), b) == Merge(a, b)
  {
    hide Dedupe, Open, MergeOpen, Items;
    MergedResolved([], a.resolved);
    MergedResolved(a.resolved, b.resolved);
    MergedResolved(Dedupe([] + a.resolved), b.resolved);
    assert [] + a.resolved == a.resolved && [] + a.pending == a.pending && [] + a.remainingWork == a.remainingWork;
    assert [] + a.keyFacts == a.keyFacts && [] + a.toolsUsed == a.toolsUsed;
    DedupeHead(a.resolved, b.resolved);
    DedupeHead(a.keyFacts, b.keyFacts);
    DedupeHead(a.toolsUsed, b.toolsUsed);
    EmptyItems();
    assert Items([]) + Items(a.resolved) == Items(a.resolved);
    assert [] + a.pending + b.pending == a.pending + b.pending;
    assert [] + a.remainingWork + b.remainingWork == a.remainingWork + b.remainingWork;
    var fewer, more := Items(a.resolved), Items(a.resolved) + Items(b.resolved);
    MergeOpenLeft([], a.pending, b.pending, fewer, more);
    MergeOpenIs(a.pending, b.pending, more);
    MergeOpenLeft([], a.remainingWork, b.remainingWork, fewer, more);
    MergeOpenIs(a.remainingWork, b.remainingWork, more);
  }

  lemma EmptyItems()
    ensures Items([]) == {}
  {
  }

  // ---- What a merge holds ----

  /** Is one text a part of the other? */
  ghost predicate PartOf(part: string, whole: string) {
    exists before, after :: whole == before + part + after
  }

  ghost predicate Touches(item: string, resolved: seq<string>) {
    exists r :: r in resolved && (PartOf(r, item) || PartOf(item, r))
  }

  /** The first place of `x` in the list is before every place of `y`. */
  predicate Earlier(list: seq<string>, x: string, y: string) {
    exists p :: 0 <= p < |list| && list[p] == x && forall q :: 0 <= q <= p ==> list[q] != y
  }

  /** The items of the list, each once, in the order of their first places. */
  ghost predicate FirstsOf(items: seq<string>, list: seq<string>) {
    (forall x :: x in items <==> x in list) && FirstPlaces(items, list)
  }

  predicate FirstPlaces(items: seq<string>, list: seq<string>) {
    forall i, j :: 0 <= i < j < |items| ==> Earlier(list, items[i], items[j])
  }

  /** Those of them that nothing resolved touches. */
  ghost predicate OpenFirstsOf(items: seq<string>, list: seq<string>, resolved: seq<string>) {
    (forall x :: x in items <==> x in list && !Touches(x, resolved)) && FirstPlaces(items, list)
  }

  lemma ContainsPart(whole: string, part: string)
    ensures Text.Contains(whole, part) <==> PartOf(part, whole)
  {
    Text.IndexOfSome(whole, part, 0);
    if Text.Contains(whole, part) {
      var k: nat :| Text.MatchesAt(whole, part, k);
      assert whole == whole[..k] + part + whole[k + |part|..];
    }
    if PartOf(part, whole) {
      var before, after :| whole == before + part + after;
      assert Text.MatchesAt(whole, part, |before|);
    }
  }

  lemma TouchedIsResolved(item: string, resolved: seq<string>)
    ensures IsResolved(item, Items(resolved)) <==> Touches(item, resolved)
  {
    hide PartOf, Text.Contains;
    forall r | r in resolved
      ensures Text.Contains(item, r) || Text.Contains(r, item) <==> PartOf(r, item) || PartOf(item, r)
    {
      ContainsPart(item, r);
      ContainsPart(r, item);
    }
  }

  lemma EarlierLonger(list: seq<string>, last: string, x: string, y: string)
    requires Earlier(list, x, y)
    ensures Earlier(list + [last], x, y)
  {
    var p :| 0 <= p < |list| && list[p] == x && forall q :: 0 <= q <= p ==> list[q] != y;
    assert (list + [last])[p] == x;
  }

  lemma NewIsLater(list: seq<string>, x: string, y: string)
    requires x in list && y !in list
    ensures Earlier(list, x, y)
  {
  }

  lemma {:induction false} DedupeFirsts(s: seq<string>)
    ensures FirstsOf(Dedupe(s), s)
  {
    hide Earlier;
    forall x ensures x in Dedupe(s) <==> x in s { DedupeHas(s, x); }
    if s != [] {
      var front, x := s[..|s| - 1], s[|s| - 1];
      DedupeFirsts(front);
      assert s == front + [x];
      DedupeSnoc(front, x);
      var d := Dedupe(s);
      forall i, j | 0 <= i < j < |d| ensures Earlier(s, d[i], d[j]) {
        DedupeHas(front, x);
        if j == |Dedupe(front)| {
          assert d[i] in Dedupe(front);
          NewIsLater(front, d[i], x);
        }
        EarlierLonger(front, x, d[i], d[j]);
      }
    }
  }

  lemma {:induction false} OpenPlaces(s: seq<string>, resolved: set<string>, list: seq<string>)
    requires FirstPlaces(s, list)
    ensures FirstPlaces(Open(s, resolved), list)
  {
    hide Earlier, IsResolved;
    if s != [] {
      var front, x := s[..|s| - 1], s[|s| - 1];
      OpenPlaces(front, resolved, list);
      var o := Open(s, resolved);
      forall i, j | 0 <= i < j < |o| ensures Earlier(list, o[i], o[j]) {
        if j == |Open(front, resolved)| {
          OpenHas(front, resolved, o[i]);
          var k :| 0 <= k < |front| && front[k] == o[i];
          assert s[k] == o[i] && o[j] == x;
        }
      }
    }
  }

  lemma MergedOpen(a: seq<string>, b: seq<string>, resolvedA: seq<string>, resolvedB: seq<string>)
    ensures OpenFirstsOf(MergeOpen(a, b, Items(Dedupe(resolvedA + resolvedB))), a + b, resolvedA + resolvedB)
  {
    hide Earlier, Touches, IsResolved, Dedupe, Items, Open;
    var resolved := Items(Dedupe(resolvedA + resolvedB));
    DedupeItems(resolvedA + resolvedB);
    DedupeFirsts(a + b);
    OpenPlaces(Dedupe(a + b), resolved, a + b);
    forall x ensures x in MergeOpen(a, b, resolved) <==> x in a + b && !Touches(x, resolvedA + resolvedB) {
      OpenHas(Dedupe(a + b), resolved, x);
      TouchedIsResolved(x, resolvedA + resolvedB);
    }
  }

  /**
   What a merge holds: in every list the items of both, existing before incoming, each once at its first place;
   of the pending items and the remaining work those that neither hold nor are held in a resolved item of either.
   */
  lemma MergeHolds(a: Summary, b: Summary)
    ensures var m := Merge(a, b);
            && FirstsOf(m.resolved, a.resolved + b.resolved)
            && FirstsOf(m.keyFacts, a.keyFacts + b.keyFacts) && FirstsOf(m.toolsUsed, a.toolsUsed + b.toolsUsed)
            && OpenFirstsOf(m.pending, a.pending + b.pending, a.resolved + b.resolved)
            && OpenFirstsOf(m.remainingWork, a.remainingWork + b.remainingWork, a.resolved + b.resolved)
  {
    hide FirstsOf, OpenFirstsOf, Dedupe, Items, MergeOpen;
    DedupeTwice(a.resolved + b.resolved);
    DedupeFirsts(a.resolved + b.resolved);
    DedupeFirsts(a.keyFacts + b.keyFacts);
    DedupeFirsts(a.toolsUsed + b.toolsUsed);
    MergedOpen(a.pending, b.pending, a.resolved, b.resolved);
    MergedOpen(a.remainingWork, b.remainingWork, a.resolved, b.resolved);
  }

  // ---- Compression keeps the protected ends ----

  datatype Compressed<M> = Unchanged | Replaced(head: seq<M>, middle: seq<M>, tail: seq<M>)

  /** What `compressWithStructure` protects and what its summary message replaces. */
  function CompressWithStructure<M>(messages: seq<M>, protectFirst: nat, protectLast: nat): (r: Compressed<M>)
    ensures r.Unchanged? <==> |messages| <= protectFirst + protectLast
    ensures r.Replaced? ==>
              && r.head + r.middle + r.tail == messages && r.middle != []
              && |r.head| == protectFirst && |r.tail| == protectLast
  {
    if |messages| <= protectFirst + protectLast then Unchanged
    else
      var headCount := if protectFirst < |messages| then protectFirst else |messages|;
      var tailCount := if protectLast < |messages| - headCount then protectLast else |messages| - headCount;
      Replaced(messages[..headCount], messages[headCount..|messages| - tailCount], messages[|messages| - tailCount..])
  }
}
