/**
 The stateful streaming parser itself (`StreamingReasoningParser`,
 packages/core/src/reasoning-blocks.ts:208-460), proved against the functions of `StreamingScan`.

 Two ghost fields remember what was fed and what was emitted since the last flush. The class
 invariant says that what was emitted, followed by what is still to come, means exactly the text
 fed so far; how that text was cut into chunks occurs nowhere in it.
 */
module StreamingParser {
  import opened Options
  import opened ReasoningTags
  import opened ReasoningEvents
  import opened StreamingScan

  class StreamingReasoningParser {
    const tags: seq<string>
    var buffer: string
    var currentTag: Option<string>
    var toolCallBuf: Option<string>

    ghost var fed: string
    ghost var told: seq<Event>

    /** The state that the fields stand for; an empty current tag is as good as none. */
    function St(): State
      reads this
    {
      State(if InBlock() then currentTag else None, toolCallBuf)
    }

    /** JavaScript's `if (this.currentTag)`. */
    predicate InBlock()
      reads this
    {
      currentTag.Some? && currentTag.value != ""
    }

    /** The look-ahead buffer holds nothing, or a `<`-led strict prefix of a known tag form. */
    ghost predicate BufferIsPartial()
      reads this
    {
      buffer == "" ||
      (buffer[0] == '<' &&
       exists t, close :: t in tags + [TOOL_CALL] && StrictPrefixOf(Lower(buffer), Form(t, close)))
    }

    ghost predicate Valid()
      reads this
    {
      && LowerCase(tags) && ValidState(tags, St())
      && BufferIsPartial()
      && ("" !in tags ==> After(Outside, told) == PositionOf(St()))
      && Kept(tags, St(), buffer, told, fed)
    }

    constructor (allowed: seq<string>)
      ensures Valid() && tags == BuildTagSet(allowed)
      ensures buffer == "" && St() == INITIAL && fed == "" && told == []
    {
      tags := BuildTagSet(allowed);
      buffer, currentTag, toolCallBuf := "", None, None;
      fed, told := "", [];
      new;
      hide LowerAll, Kept, Lower, Next;
      LowerAllPrepares(if |allowed| > 0 then allowed else DEFAULT_TAGS, []);
      KeptInitially(tags);
    }

    /** Feed a chunk: the events are those of one pump, whatever was cut off stays in the buffer. */
    method Feed(chunk: string) returns (events: seq<Event>)
      requires Valid()
      modifies this
      ensures Valid()
      ensures fed == old(fed) + chunk && told == old(told) + events
      ensures var p := Pump(tags, old(St()), old(buffer) + chunk);
              events == Merge(p.events) && St() == p.st && buffer == p.rest
    {
      hide Steady, Kept, LowerCase, ValidState, Merge, Pump, After, StrictPrefixOf, Form, Lower;
      ghost var st0 := St();
      ghost var whole := buffer + chunk;
      buffer := buffer + chunk;
      events := Drain(false);
      fed, told := fed + chunk, told + events;
      RestIsPartial(tags, st0, whole);
      PumpValid(tags, st0, whole);
      if "" !in tags {
        PumpShape(tags, st0, whole);
        AfterMerge(PositionOf(st0), Pump(tags, st0, whole).events);
        AfterConcat(Outside, old(told), events);
      }
      KeptByFeed(tags, st0, old(buffer), chunk, old(told), old(fed));
    }

    /**
     At the end of the stream the parser is as good as new. Unless the text fed since the last flush opens
     or closes a shadowed name, everything emitted since then means exactly that text; unless a name is
     empty, every block is closed.
     */
    method Flush() returns (events: seq<Event>)
      requires Valid()
      modifies this
      ensures Valid() && buffer == "" && St() == INITIAL && fed == "" && told == []
      ensures events == Merge(Told(tags, old(St()), old(buffer)))
      ensures Steady(tags, old(fed)) ==> Merge(old(told) + events) == Merge(Meaning(tags, old(fed)))
      ensures "" !in tags ==> After(Outside, old(told) + events) == Outside
    {
      hide Merge, Told, Meaning, Kept, Steady;
      ghost var st0, rest, before, text := St(), buffer, told, fed;
      if Steady(tags, text) { KeptAtEnd(tags, st0, rest, before, text); }
      events := Drain(true);
      fed, told := "", [];
      MergeTail(before, Told(tags, st0, rest));
      if "" !in tags {
        RunShape(tags, st0, rest, []);
        AfterConcat(Outside, before, events);
      }
      KeptInitially(tags);
    }

    /**
     One forward sweep over the buffer. On the final flush the sweep reaches the end of the buffer,
     so the branch that emits a left-over buffer is never taken and only an open block is closed.
     */
    method Drain(finalFlush: bool) returns (events: seq<Event>)
      requires LowerCase(tags) && ValidState(tags, St())
      modifies this`buffer, this`currentTag, this`toolCallBuf
      ensures !finalFlush ==>
                var p := Pump(tags, old(St()), old(buffer));
                events == Merge(p.events) && St() == p.st && buffer == p.rest
      ensures finalFlush ==>
                events == Merge(Told(tags, old(St()), old(buffer))) && St() == INITIAL && buffer == ""
    {
      hide Take, Waits, Scan, Pump, Told, SoFar, Structural;
      events := [];
      var i := 0;
      ghost var fine: seq<Event> := [];
      var len := |buffer|;
      assert buffer[0..] == buffer;
      SoFarBegins(finalFlush, tags, St(), buffer);
      while i < len
        invariant 0 <= i <= len == |buffer| && buffer == old(buffer)
        invariant ValidState(tags, St())
        invariant events == Merge(fine)
        invariant SoFar(finalFlush, tags, old(St()), buffer, fine, St(), buffer[i..])
        decreases len - i
      {
        ghost var rest, st := buffer[i..], St();
        var next;
        events, next := Advance(events, i, finalFlush);
        if next.None? { break; }
        ghost var turn := Take(tags, st, rest);
        Step(finalFlush, tags, old(St()), buffer, fine, st, rest);
        TurnKeeps(tags, fine, st, rest);
        fine := fine + turn.events;
        i := next.value;
        assert buffer[i..] == rest[turn.width..];
      }
      SoFarEnds(finalFlush, tags, old(St()), buffer, fine, St(), buffer[i..]);
      buffer := buffer[i..];
      if finalFlush {
        MergeClosing(fine, St());
        if InBlock() {
          events := events + [ReasoningEnd(currentTag.value)];
          currentTag := None;
        }
        toolCallBuf := None;
      }
    }

    /** One pass of the sweep: a structural match, a decision to wait (`None`), or a plain character. */
    method Advance(before: seq<Event>, i: nat, finalFlush: bool) returns (events: seq<Event>, next: Option<nat>)
      requires i < |buffer|
      modifies this`currentTag, this`toolCallBuf
      ensures next.None? ==> !finalFlush && Waits(tags, old(St()), buffer[i..]) && events == before && St() == old(St())
      ensures next.Some? ==>
                && (finalFlush || !Waits(tags, old(St()), buffer[i..]))
                && var t := Take(tags, old(St()), buffer[i..]);
                   next.value == i + t.width && St() == t.next && events == PushAll(before, t.events)
    {
      events := before;
      if buffer[i] == '<' {
        if InBlock() {
          events, next := MatchInside(events, i);
        } else {
          events, next := MatchOutside(events, i);
        }
        if next.Some? { return; }
        if !finalFlush {
          var partial := CouldBePartialTag(i);
          if partial { return; }
        }
      }
      var after;
      events, after := EmitChar(events, i);
      next := Some(after);
    }

    /** Inside a block: its closer, then a tool-call opener, then a tool-call closer. */
    method MatchInside(before: seq<Event>, i: nat) returns (events: seq<Event>, end: Option<nat>)
      requires InBlock() && i < |buffer|
      modifies this`currentTag, this`toolCallBuf
      ensures MatchedTurn(Structural(tags, old(St()), buffer[i..]), before, events, i, end)
      ensures St() == match Structural(tags, old(St()), buffer[i..]) case None => old(St()) case Some(t) => t.next
    {
      events, end := before, None;
      var tag := currentTag.value;
      MatchTagIsForm(buffer, i, tag, true);
      MatchTagIsForm(buffer, i, TOOL_CALL, false);
      MatchTagIsForm(buffer, i, TOOL_CALL, true);
      var close := MatchTag(buffer, i, tag, true);
      if close.Some? {
        toolCallBuf := None;
        events := events + [ReasoningEnd(tag)];
        currentTag := None;
        end := close;
        return;
      }
      var tcOpen := MatchTag(buffer, i, TOOL_CALL, false);
      if tcOpen.Some? {
        toolCallBuf := Some("");
        end := tcOpen;
        return;
      }
      var tcClose := MatchTag(buffer, i, TOOL_CALL, true);
      if tcClose.Some? && toolCallBuf.Some? {
        events := events + [ToolCallSpan(toolCallBuf.value, currentTag)];
        toolCallBuf := None;
        end := tcClose;
      }
    }

    /** Outside: any opener unless a payload is being collected, then the tool-call markers. */
    method MatchOutside(before: seq<Event>, i: nat) returns (events: seq<Event>, end: Option<nat>)
      requires !InBlock() && i < |buffer|
      modifies this`currentTag, this`toolCallBuf
      ensures MatchedTurn(Structural(tags, old(St()), buffer[i..]), before, events, i, end)
      ensures St() == match Structural(tags, old(St()), buffer[i..]) case None => old(St()) case Some(t) => t.next
    {
      events, end := before, None;
      MatchTagIsForm(buffer, i, TOOL_CALL, false);
      MatchTagIsForm(buffer, i, TOOL_CALL, true);
      if toolCallBuf.None? {
        var opener := MatchAnyOpener(i);
        if opener.Some? {
          events := events + [ReasoningStart(opener.value.0)];
          currentTag := Some(opener.value.0);
          end := Some(opener.value.1);
          return;
        }
      }
      var tcOpen := MatchTag(buffer, i, TOOL_CALL, false);
      if tcOpen.Some? && toolCallBuf.None? {
        toolCallBuf := Some("");
        end := tcOpen;
        return;
      }
      var tcClose := MatchTag(buffer, i, TOOL_CALL, true);
      if tcClose.Some? && toolCallBuf.Some? {
        events := events + [ToolCallSpan(toolCallBuf.value, None)];
        toolCallBuf := None;
        end := tcClose;
      }
    }

    method MatchAnyOpener(i: nat) returns (r: Option<(string, nat)>)
      requires i <= |buffer|
      ensures r == match FirstOpener(tags, buffer[i..])
                   case None => None
                   case Some(tag) => Some((tag, i + |Form(tag, false)|))
    {
      var k := 0;
      assert tags[0..] == tags;
      while k < |tags|
        invariant 0 <= k <= |tags|
        invariant FirstOpener(tags, buffer[i..]) == FirstOpener(tags[k..], buffer[i..])
      {
        MatchTagIsForm(buffer, i, tags[k], false);
        var end := MatchTag(buffer, i, tags[k], false);
        if end.Some? {
          return Some((tags[k], end.value));
        }
        assert tags[k..][1..] == tags[k + 1..];
        k := k + 1;
      }
      return None;
    }

    method CouldBePartialTag(i: nat) returns (b: bool)
      requires i <= |buffer|
      ensures b == CouldBePartial(tags, buffer[i..])
    {
      var slice := Lower(buffer[i..]);
      if slice == "<" || slice == "</" {
        return true;
      }
      var allTags := tags + [TOOL_CALL];
      var k := 0;
      while k < |allTags|
        invariant 0 <= k <= |allTags|
        invariant forall j :: 0 <= j < k ==> !PartialOfTag(slice, allTags[j])
      {
        if PartialOfTag(slice, allTags[k]) {
          return true;
        }
        k := k + 1;
      }
      return false;
    }

    /** Route one character, extending the last event of this call when it is of the same kind. */
    method EmitChar(before: seq<Event>, i: nat) returns (events: seq<Event>, next: nat)
      requires i < |buffer|
      modifies this`toolCallBuf
      ensures next == i + 1 && St() == Emit(old(St()), buffer[i]).next
      ensures events == PushAll(before, Emit(old(St()), buffer[i]).events)
    {
      var ch := buffer[i];
      events, next := before, i + 1;
      if toolCallBuf.Some? {
        toolCallBuf := Some(toolCallBuf.value + [ch]);
      } else if InBlock() {
        if |events| > 0 && events[|events| - 1].ReasoningDelta? {
          var last := events[|events| - 1];
          events := events[|events| - 1 := ReasoningDelta(last.content + [ch])];
        } else {
          events := events + [ReasoningDelta([ch])];
        }
      } else {
        if |events| > 0 && events[|events| - 1].Text? {
          var last := events[|events| - 1];
          events := events[|events| - 1 := Text(last.content + [ch])];
        } else {
          events := events + [Text([ch])];
        }
      }
    }
  }

  function PushAll(acc: seq<Event>, es: seq<Event>): seq<Event> {
    if es == [] then acc else Push(acc, es[0])
  }

  predicate MatchedTurn(found: Option<Turn>, before: seq<Event>, events: seq<Event>, i: nat, end: Option<nat>) {
    match found
    case None => end.None? && events == before
    case Some(t) => end == Some(i + t.width) && events == PushAll(before, t.events)
  }

  lemma MergeTurn(fine: seq<Event>, t: Turn)
    requires |t.events| <= 1
    ensures Merge(fine + t.events) == PushAll(Merge(fine), t.events)
  {
    if t.events == [] {
      assert fine + t.events == fine;
    } else {
      assert t.events == [t.events[0]];
      MergeSnoc(fine, t.events[0]);
    }
  }

  lemma TurnKeeps(tags: seq<string>, fine: seq<Event>, st: State, rest: string)
    requires LowerCase(tags) && rest != "" && ValidState(tags, st)
    ensures var t := Take(tags, st, rest);
            Merge(fine + t.events) == PushAll(Merge(fine), t.events) && ValidState(tags, t.next)
  {
    hide Take, ValidState;
    TakeValid(tags, st, rest);
    MergeTurn(fine, Take(tags, st, rest));
  }

  lemma MergeClosing(fine: seq<Event>, st: State)
    ensures Merge(fine + Closing(st)) == Merge(fine) + Closing(st)
  {
    if st.currentTag.Some? {
      MergeSnoc(fine, ReasoningEnd(st.currentTag.value));
    } else {
      assert fine + [] == fine;
    }
  }

  /** Loop invariant of `Drain`: the turns taken so far, then the rest, make up the whole sweep. */
  ghost predicate SoFar(final: bool, tags: seq<string>, st0: State, text: string,
                        fine: seq<Event>, st: State, rest: string) {
    if final then
      Scan(tags, st0, text) == Scanned(fine + Scan(tags, st, rest).events, Scan(tags, st, rest).st)
    else
      Pump(tags, st0, text) ==
      Pumped(fine + Pump(tags, st, rest).events, Pump(tags, st, rest).st, Pump(tags, st, rest).rest)
  }

  lemma SoFarBegins(final: bool, tags: seq<string>, st: State, text: string)
    ensures SoFar(final, tags, st, text, [], st, text)
  {
  }

  lemma Step(final: bool, tags: seq<string>, st0: State, text: string, fine: seq<Event>, st: State, rest: string)
    requires rest != "" && (final || !Waits(tags, st, rest))
    requires SoFar(final, tags, st0, text, fine, st, rest)
    ensures var t := Take(tags, st, rest);
            SoFar(final, tags, st0, text, fine + t.events, t.next, rest[t.width..])
  {
    var t := Take(tags, st, rest);
    if final {
      var s := Scan(tags, t.next, rest[t.width..]);
      assert fine + (t.events + s.events) == (fine + t.events) + s.events;
    } else {
      var p := Pump(tags, t.next, rest[t.width..]);
      assert fine + (t.events + p.events) == (fine + t.events) + p.events;
    }
  }

  lemma SoFarEnds(final: bool, tags: seq<string>, st0: State, text: string, fine: seq<Event>, st: State, rest: string)
    requires SoFar(final, tags, st0, text, fine, st, rest)
    requires rest == "" || (!final && Waits(tags, st, rest))
    ensures !final ==> Pump(tags, st0, text) == Pumped(fine, st, rest)
    ensures final ==> Told(tags, st0, text) == fine + Closing(st)
    ensures fine + [] == fine
  {
  }

  /**
   The buffer is the end of the text fed. What was emitted, then what is still to come, means the text fed,
   whatever comes next without opening or closing a shadowed name.
   */
  ghost predicate Kept(tags: seq<string>, st: State, buffer: string, told: seq<Event>, fed: string) {
    && |buffer| <= |fed| && buffer == fed[|fed| - |buffer|..]
    && forall more: string :: KeptFor(tags, st, buffer, told, fed, more)
  }

  ghost predicate KeptFor(tags: seq<string>, st: State, buffer: string, told: seq<Event>, fed: string, more: string) {
    Steady(tags, fed + more) ==> Merge(told + Told(tags, st, buffer + more)) == Merge(Meaning(tags, fed + more))
  }

  lemma KeptInitially(tags: seq<string>)
    ensures Kept(tags, INITIAL, "", [], "")
  {
    forall more: string ensures KeptFor(tags, INITIAL, "", [], "", more) {
      assert "" + more == more && [] + Meaning(tags, more) == Meaning(tags, more);
    }
  }

  lemma KeptByFeed(tags: seq<string>, st: State, buffer: string, chunk: string, told: seq<Event>, fed: string)
    requires LowerCase(tags) && ValidState(tags, st) && Kept(tags, st, buffer, told, fed)
    ensures var p := Pump(tags, st, buffer + chunk); Kept(tags, p.st, p.rest, told + Merge(p.events), fed + chunk)
  {
    hide Pump, Merge, KeptFor;
    var p := Pump(tags, st, buffer + chunk);
    PumpSuffix(tags, st, buffer + chunk);
    forall more: string ensures KeptFor(tags, p.st, p.rest, told + Merge(p.events), fed + chunk, more) {
      assert KeptFor(tags, st, buffer, told, fed, chunk + more);
      KeptForFeed(tags, st, buffer, chunk, told, fed, more);
    }
  }

  lemma KeptForFeed(tags: seq<string>, st: State, buffer: string, chunk: string, told: seq<Event>, fed: string, more: string)
    requires LowerCase(tags) && ValidState(tags, st) && KeptFor(tags, st, buffer, told, fed, chunk + more)
    requires |buffer| <= |fed| && buffer == fed[|fed| - |buffer|..]
    ensures var p := Pump(tags, st, buffer + chunk);
            KeptFor(tags, p.st, p.rest, told + Merge(p.events), fed + chunk, more)
  {
    hide Merge, Pump, Told, Steady, Meaning;
    var p := Pump(tags, st, buffer + chunk);
    Grouped(buffer, chunk, more);
    Grouped(fed, chunk, more);
    if Steady(tags, (fed + chunk) + more) {
      EndSteady(tags, fed, buffer, chunk, more);
      PumpThenTold(tags, st, buffer + chunk, more);
      Transfer(told, Told(tags, st, (buffer + chunk) + more), p.events, Told(tags, p.st, p.rest + more),
               Merge(Meaning(tags, (fed + chunk) + more)));
    }
  }

  lemma Grouped(a: string, b: string, c: string)
    ensures a + (b + c) == (a + b) + c
  {
  }

  lemma EndSteady(tags: seq<string>, fed: string, buffer: string, chunk: string, more: string)
    requires |buffer| <= |fed| && buffer == fed[|fed| - |buffer|..] && Steady(tags, (fed + chunk) + more)
    ensures Steady(tags, (buffer + chunk) + more)
  {
    hide Steady;
    SteadyTail(tags, (fed + chunk) + more, |fed| - |buffer|);
    assert ((fed + chunk) + more)[|fed| - |buffer|..] == (buffer + chunk) + more;
  }

  lemma Transfer(told: seq<Event>, whole: seq<Event>, head: seq<Event>, tail: seq<Event>, meaning: seq<Event>)
    requires whole == head + tail && Merge(told + whole) == meaning
    ensures Merge((told + Merge(head)) + tail) == meaning
  {
    MergeMiddle(told, head, tail);
  }

  lemma KeptAtEnd(tags: seq<string>, st: State, buffer: string, told: seq<Event>, fed: string)
    requires Kept(tags, st, buffer, told, fed) && Steady(tags, fed)
    ensures Merge(told + Told(tags, st, buffer)) == Merge(Meaning(tags, fed))
  {
    assert KeptFor(tags, st, buffer, told, fed, "");
    assert buffer + "" == buffer && fed + "" == fed;
  }

  lemma MergeMiddle(a: seq<Event>, b: seq<Event>, c: seq<Event>)
    ensures Merge((a + Merge(b)) + c) == Merge(a + (b + c))
  {
    hide *;
    MergeHead(a + Merge(b), c);
    MergeTail(a, b);
    MergeHead(a + b, c);
    assert (a + b) + c == a + (b + c);
  }
}
