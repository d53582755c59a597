/**
 Events of the streaming reasoning parser and their comparison up to merging.

 Two event streams say the same thing when they agree after adjacent `Text` events and adjacent
 `Delta` events are merged; `Merge` computes that normal form by the push-or-extend rule that
 `emitChar` applies to the last event.
 */
module ReasoningEvents {
  import opened Options

  datatype Event =
    | Text(content: string)
    | ReasoningStart(tag: string)
    | ReasoningDelta(content: string)
    | ReasoningEnd(tag: string)
    | ToolCallSpan(json: string, insideTag: Option<string>)

  predicate Mergeable(a: Event, b: Event) {
    (a.Text? && b.Text?) || (a.ReasoningDelta? && b.ReasoningDelta?)
  }

  function Push(acc: seq<Event>, e: Event): seq<Event> {
    if |acc| > 0 && Mergeable(acc[|acc| - 1], e)
    then acc[|acc| - 1 := Extend(acc[|acc| - 1], e)]
    else acc + [e]
  }

  function Extend(a: Event, b: Event): Event
    requires Mergeable(a, b)
  {
    a.(content := a.content + b.content)
  }

  function Merge(es: seq<Event>): seq<Event> {
    if es == [] then [] else Push(Merge(es[..|es| - 1]), es[|es| - 1])
  }

  /** No two neighbours of a merged stream could still be merged. */
  lemma {:induction false} MergeIsNormal(es: seq<Event>)
    ensures forall i :: 0 <= i < |Merge(es)| - 1 ==> !Mergeable(Merge(es)[i], Merge(es)[i + 1])
    ensures es != [] ==> Merge(es) != []
  {
    if es != [] { MergeIsNormal(es[..|es| - 1]); }
  }

  /** A first event that nothing merges with stays the first event. */
  lemma {:induction false} MergeFirst(es: seq<Event>)
    requires es != [] && !es[0].Text? && !es[0].ReasoningDelta?
    ensures Merge(es) != [] && Merge(es)[0] == es[0]
  {
    if |es| > 1 { MergeFirst(es[..|es| - 1]); }
  }

  lemma MergeSnoc(a: seq<Event>, e: Event)
    ensures Merge(a + [e]) == Push(Merge(a), e)
  {
    assert (a + [e])[..|a|] == a;
  }

  lemma PushExtended(acc: seq<Event>, a: Event, b: Event)
    requires Mergeable(a, b)
    ensures Push(acc, Extend(a, b)) == Push(Push(acc, a), b)
  {
    if |acc| > 0 && Mergeable(acc[|acc| - 1], a) {
      var x := acc[|acc| - 1];
      assert (x.content + a.content) + b.content == x.content + (a.content + b.content);
    }
  }

  lemma MergePush(a: seq<Event>, m: seq<Event>, e: Event)
    ensures Merge(a + Push(m, e)) == Push(Merge(a + m), e)
  {
    if |m| > 0 && Mergeable(m[|m| - 1], e) {
      var init, last := m[..|m| - 1], m[|m| - 1];
      assert a + m == (a + init) + [last];
      assert a + Push(m, e) == (a + init) + [Extend(last, e)];
      MergeSnoc(a + init, last);
      MergeSnoc(a + init, Extend(last, e));
      PushExtended(Merge(a + init), last, e);
    } else {
      assert a + Push(m, e) == (a + m) + [e];
      MergeSnoc(a + m, e);
    }
  }

  /** Merging a tail first changes nothing. */
  lemma {:induction false} MergeTail(a: seq<Event>, b: seq<Event>)
    ensures Merge(a + Merge(b)) == Merge(a + b)
  {
    hide Push;
    if b == [] {
      assert a + b == a;
    } else {
      var front, e := b[..|b| - 1], b[|b| - 1];
      MergeTail(a, front);
      MergePush(a, Merge(front), e);
      assert a + b == (a + front) + [e];
      MergeSnoc(a + front, e);
    }
  }

  /** Merging a head first changes nothing. */
  lemma {:induction false} MergeHead(a: seq<Event>, b: seq<Event>)
    ensures Merge(Merge(a) + b) == Merge(a + b)
  {
    if b == [] {
      MergeTail([], a);
      assert [] + Merge(a) == Merge(a) + b && [] + a == a + b;
    } else {
      var front, e := b[..|b| - 1], b[|b| - 1];
      MergeHead(a, front);
      assert a + b == (a + front) + [e] && Merge(a) + b == (Merge(a) + front) + [e];
      MergeSnoc(a + front, e);
      MergeSnoc(Merge(a) + front, e);
    }
  }

  // ---- The grammar of a well-formed stream ----

  datatype Position = Outside | Inside(tag: string) | Broken

  function Next(p: Position, e: Event): Position {
    match (p, e)
    case (Outside, Text(_)) => p
    case (Outside, ReasoningStart(tag)) => Inside(tag)
    case (Outside, ToolCallSpan(_, None)) => p
    case (Inside(_), ReasoningDelta(_)) => p
    case (Inside(t), ReasoningEnd(tag)) => if t == tag then Outside else Broken
    case (Inside(t), ToolCallSpan(_, Some(tag))) => if t == tag then p else Broken
    case _ => Broken
  }

  /** Where a stream leaves the reader: text only outside, deltas only inside, starts and ends paired. */
  function After(p: Position, es: seq<Event>): Position {
    if es == [] then p else Next(After(p, es[..|es| - 1]), es[|es| - 1])
  }

  lemma {:induction false} AfterConcat(p: Position, a: seq<Event>, b: seq<Event>)
    ensures After(p, a + b) == After(After(p, a), b)
  {
    if b == [] {
      assert a + b == a;
    } else {
      AfterConcat(p, a, b[..|b| - 1]);
      assert (a + b)[..|a + b| - 1] == a + b[..|b| - 1];
    }
  }

  lemma {:induction false} AfterMerge(p: Position, es: seq<Event>)
    ensures After(p, Merge(es)) == After(p, es)
  {
    if es != [] {
      var front, e := es[..|es| - 1], es[|es| - 1];
      var m := Merge(front);
      AfterMerge(p, front);
      if |m| > 0 && Mergeable(m[|m| - 1], e) {
        assert Merge(es)[..|m| - 1] == m[..|m| - 1];
      } else {
        assert Merge(es)[..|m|] == m;
      }
    }
  }

  // ---- What a reader collects from a stream ----

  /** All text outside reasoning blocks, joined. */
  function TextOf(es: seq<Event>): string {
    if es == [] then ""
    else TextOf(es[..|es| - 1]) + (var e := es[|es| - 1]; if e.Text? then e.content else "")
  }

  datatype Group = Group(tag: string, content: string)

  function Grow(gs: seq<Group>, c: string): seq<Group> {
    if gs == [] then gs else gs[|gs| - 1 := Group(gs[|gs| - 1].tag, gs[|gs| - 1].content + c)]
  }

  /** The start/delta/end groups, in order; a block still open counts as a group. */
  function GroupsOf(es: seq<Event>): seq<Group> {
    if es == [] then []
    else
      var gs := GroupsOf(es[..|es| - 1]);
      match es[|es| - 1]
      case ReasoningStart(tag) => gs + [Group(tag, "")]
      case ReasoningDelta(c) => Grow(gs, c)
      case _ => gs
  }

  lemma {:induction false} TextOfConcat(a: seq<Event>, b: seq<Event>)
    ensures TextOf(a + b) == TextOf(a) + TextOf(b)
  {
    if b == [] {
      assert a + b == a;
    } else {
      TextOfConcat(a, b[..|b| - 1]);
      assert (a + b)[..|a + b| - 1] == a + b[..|b| - 1];
    }
  }

  /** Extending the last event collects what appending a new one would. */
  lemma CollectPush(m: seq<Event>, e: Event)
    ensures TextOf(Push(m, e)) == TextOf(m + [e]) && GroupsOf(Push(m, e)) == GroupsOf(m + [e])
  {
    assert (m + [e])[..|m|] == m;
    if |m| > 0 && Mergeable(m[|m| - 1], e) {
      var init, x := m[..|m| - 1], m[|m| - 1];
      var joined := init + [Extend(x, e)];
      assert Push(m, e) == joined && joined[..|m| - 1] == init;
      if e.Text? {
        assert (TextOf(init) + x.content) + e.content == TextOf(init) + (x.content + e.content);
      } else {
        CollectDelta(GroupsOf(init), x.content, e.content);
      }
    }
  }

  lemma CollectDelta(gs: seq<Group>, a: string, b: string)
    ensures Grow(gs, a + b) == Grow(Grow(gs, a), b)
  {
    if gs != [] {
      var c := gs[|gs| - 1].content;
      assert (c + a) + b == c + (a + b);
    }
  }

  lemma {:induction false} CollectMerged(es: seq<Event>)
    ensures TextOf(Merge(es)) == TextOf(es) && GroupsOf(Merge(es)) == GroupsOf(es)
  {
    if es != [] {
      hide Push;
      var front, e := es[..|es| - 1], es[|es| - 1];
      CollectMerged(front);
      CollectPush(Merge(front), e);
      assert (Merge(front) + [e])[..|Merge(front)|] == Merge(front);
    }
  }
}
