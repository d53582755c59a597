/**
 The tool calls of a stream (packages/core/src/reasoning-blocks.ts:228-489): what each streamed span carries, for
 every cutting into chunks, and on which texts they are the spans that the one-shot parser reports.
 */
module StreamingSpans {
  import opened Options
  import opened ReasoningTags
  import opened ReasoningEvents
  import opened StreamingScan
  import opened BatchParser
  import opened BatchProperties
  import opened StreamingRefinesBatch

  /** A tool call as it is reported: its payload, and the block that it stands in. */
  datatype Call = Call(json: string, insideTag: Option<string>)

  function CallsOf(es: seq<Event>): seq<Call> {
    if es == [] then []
    else CallsOf(es[..|es| - 1]) + (var e := es[|es| - 1]; if e.ToolCallSpan? then [Call(e.json, e.insideTag)] else [])
  }

  function Reported(spans: seq<Span>): seq<Call> {
    if spans == [] then [] else [Call(spans[0].json, spans[0].insideTag)] + Reported(spans[1..])
  }

  lemma {:induction false} CallsOfConcat(a: seq<Event>, b: seq<Event>)
    ensures CallsOf(a + b) == CallsOf(a) + CallsOf(b)
  {
    if b == [] {
      assert a + b == a;
    } else {
      CallsOfConcat(a, b[..|b| - 1]);
      assert (a + b)[..|a + b| - 1] == a + b[..|b| - 1];
    }
  }

  lemma CallsOfOne(e: Event)
    ensures CallsOf([e]) == if e.ToolCallSpan? then [Call(e.json, e.insideTag)] else []
  {
    assert [e][..0] == [];
  }

  lemma {:induction false} CallsMerged(es: seq<Event>)
    ensures CallsOf(Merge(es)) == CallsOf(es)
  {
    if es != [] {
      var m, e := Merge(es[..|es| - 1]), es[|es| - 1];
      CallsMerged(es[..|es| - 1]);
      if |m| > 0 && Mergeable(m[|m| - 1], e) {
        assert Push(m, e)[..|m| - 1] == m[..|m| - 1];
      } else {
        assert Push(m, e)[..|m|] == m;
      }
    }
  }

  lemma {:induction false} ReportedConcat(a: seq<Span>, b: seq<Span>)
    ensures Reported(a + b) == Reported(a) + Reported(b)
  {
    if a == [] {
      assert a + b == b;
    } else {
      ReportedConcat(a[1..], b);
      assert (a + b)[1..] == a[1..] + b;
    }
  }

  lemma {:induction false} NoCallsInPlain(s: string)
    ensures CallsOf(Texts(s)) == [] && CallsOf(Deltas(s)) == []
  {
    if s != "" {
      NoCallsInPlain(s[1..]);
      CallsOfConcat([Text(s[..1])], Texts(s[1..]));
      CallsOfConcat([ReasoningDelta(s[..1])], Deltas(s[1..]));
      CallsOfOne(Text(s[..1]));
      CallsOfOne(ReasoningDelta(s[..1]));
    }
  }

  // ---- Collecting a payload ----

  /** Where a payload goes on: no tool-call closer, and inside a block neither its closer nor another opener. */
  predicate Collects(st: State, text: string, k: nat)
    requires k <= |text|
  {
    && !Starts(text[k..], Form(TOOL_CALL, true))
    && (st.currentTag.Some? ==>
          !Starts(text[k..], Form(st.currentTag.value, true)) && !Starts(text[k..], Form(TOOL_CALL, false)))
  }

  lemma CollectTurn(tags: seq<string>, st: State, text: string, i: nat)
    requires i < |text| && st.toolCallBuf.Some? && Collects(st, text, i)
    ensures Take(tags, st, text[i..]) == Turn([], st.(toolCallBuf := Some(st.toolCallBuf.value + [text[i]])), 1)
  {
    hide Starts, Form;
  }

  /** A stretch of the payload is appended to it, and nothing is said. */
  lemma {:induction false} Collect(tags: seq<string>, st: State, text: string, lo: nat, hi: nat)
    requires lo <= hi <= |text| && st.toolCallBuf.Some? && forall k :: lo <= k < hi ==> Collects(st, text, k)
    ensures Scan(tags, st, text[lo..]) ==
            Scan(tags, st.(toolCallBuf := Some(st.toolCallBuf.value + text[lo..hi])), text[hi..])
    decreases hi - lo
  {
    hide Collects, Scan, Take;
    var had := st.toolCallBuf.value;
    if lo == hi {
      assert had + text[lo..hi] == had;
    } else {
      var next := st.(toolCallBuf := Some(had + [text[lo]]));
      CollectTurn(tags, st, text, lo);
      ScanUnfold(tags, st, text[lo..]);
      assert text[lo..][1..] == text[lo + 1..];
      NothingPrefixed(Scan(tags, next, text[lo + 1..]));
      CollectsAnyway(st, next, text, lo + 1, hi);
      Collect(tags, next, text, lo + 1, hi);
      assert (had + [text[lo]]) + text[lo + 1..hi] == had + text[lo..hi];
    }
  }

  lemma CollectsAnyway(st: State, next: State, text: string, lo: nat, hi: nat)
    requires lo <= hi <= |text| && st.currentTag == next.currentTag && forall k :: lo <= k < hi ==> Collects(st, text, k)
    ensures forall k :: lo <= k < hi ==> Collects(next, text, k)
  {
    hide Starts, Form;
    forall k | lo <= k < hi ensures Collects(next, text, k) { assert Collects(st, text, k); }
  }

  lemma NothingPrefixed(s: Scanned)
    ensures Prefixed([], s) == s
  {
  }

  /** One turn of the scan at a place of the text. */
  lemma TurnAt(tags: seq<string>, st: State, text: string, i: nat, t: Turn)
    requires i < |text| && Take(tags, st, text[i..]) == t
    ensures i + t.width <= |text|
    ensures Scan(tags, st, text[i..]) == Prefixed(t.events, Scan(tags, t.next, text[i + t.width..]))
  {
    hide Take, Scan;
    ScanUnfold(tags, st, text[i..]);
    assert text[i..][t.width..] == text[i + t.width..];
  }

  /** Is the reader between blocks, with nothing opening here, or in a block, and not collecting a payload? */
  predicate Ready(tags: seq<string>, st: State, text: string) {
    st.toolCallBuf.None? && (st.currentTag.None? ==> FirstOpener(tags, text).None?)
  }

  lemma OpenPayload(tags: seq<string>, st: State, text: string, i: nat)
    requires i <= |text| && Ready(tags, st, text[i..]) && Starts(text[i..], Form(TOOL_CALL, false))
    ensures i + OpenLen(TOOL_CALL) <= |text|
    ensures Scan(tags, st, text[i..]) == Scan(tags, st.(toolCallBuf := Some("")), text[i + OpenLen(TOOL_CALL)..])
  {
    TagInterior(text, i, false);
    if st.currentTag.Some? { ToolOpenerIsNoCloser(text[i..], st.currentTag.value); }
    hide Scan, Starts, Form;
    var next := st.(toolCallBuf := Some(""));
    TurnAt(tags, st, text, i, Turn([], next, OpenLen(TOOL_CALL)));
    NothingPrefixed(Scan(tags, next, text[i + OpenLen(TOOL_CALL)..]));
  }

  lemma ClosePayload(tags: seq<string>, st: State, text: string, j: nat)
    requires j <= |text| && st.toolCallBuf.Some? && Starts(text[j..], Form(TOOL_CALL, true))
    requires st.currentTag.Some? ==> !Starts(text[j..], Form(st.currentTag.value, true))
    ensures j + CloseLen(TOOL_CALL) <= |text|
    ensures Scan(tags, st, text[j..]) ==
            Prefixed([ToolCallSpan(st.toolCallBuf.value, st.currentTag)],
                     Scan(tags, st.(toolCallBuf := None), text[j + CloseLen(TOOL_CALL)..]))
  {
    TagInterior(text, j, true);
    if Starts(text[j..], Form(TOOL_CALL, false)) { ToolOpenerIsNoCloser(text[j..], TOOL_CALL); }
    hide Scan, Starts, Form;
    TurnAt(tags, st, text, j,
           Turn([ToolCallSpan(st.toolCallBuf.value, st.currentTag)], st.(toolCallBuf := None), CloseLen(TOOL_CALL)));
  }

  /**
   A pair of tool-call tags says one span with exactly the text between them, under the current block, and then
   what the rest says: outside a block if the first closer is the one at `j`, inside a block if moreover neither
   the block's closer nor another tool-call opener begins before.
   */
  lemma PairSaysSpan(tags: seq<string>, st: State, text: string, i: nat, j: nat)
    requires i + OpenLen(TOOL_CALL) <= j <= |text| && Ready(tags, st, text[i..])
    requires Starts(text[i..], Form(TOOL_CALL, false)) && Starts(text[j..], Form(TOOL_CALL, true))
    requires forall k :: i + OpenLen(TOOL_CALL) <= k < j ==> Collects(st, text, k)
    requires st.currentTag.Some? ==> !Starts(text[j..], Form(st.currentTag.value, true))
    ensures j + CloseLen(TOOL_CALL) <= |text|
    ensures Told(tags, st, text[i..]) ==
            [ToolCallSpan(text[i + OpenLen(TOOL_CALL)..j], st.currentTag)] + Told(tags, st, text[j + CloseLen(TOOL_CALL)..])
  {
    hide *;
    var open, end := i + OpenLen(TOOL_CALL), j + CloseLen(TOOL_CALL);
    var empty, full := st.(toolCallBuf := Some("")), st.(toolCallBuf := Some(text[open..j]));
    OpenPayload(tags, st, text, i);
    CollectsAnyway(st, empty, text, open, j);
    Collect(tags, empty, text, open, j);
    assert "" + text[open..j] == text[open..j];
    ClosePayload(tags, full, text, j);
    assert full.(toolCallBuf := None) == st by { ReadyHasNone(tags, st, text[i..]); }
    ToldPrefixed(tags, st, text[i..], [ToolCallSpan(text[open..j], st.currentTag)], st, text[end..]);
  }

  /** Outside a block a tool-call opener that is never closed says nothing any more, the rest of the text included. */
  lemma UnclosedSaysNothing(tags: seq<string>, text: string, i: nat)
    requires i <= |text| && FirstOpener(tags, text[i..]).None? && Starts(text[i..], Form(TOOL_CALL, false))
    requires NoForm(text, Form(TOOL_CALL, true), i, |text|)
    ensures Told(tags, INITIAL, text[i..]) == []
  {
    hide Starts, Form, FirstOpener;
    OpenPayload(tags, INITIAL, text, i);
    var open := i + OpenLen(TOOL_CALL);
    Collect(tags, State(None, Some("")), text, open, |text|);
    assert text[|text|..] == "";
  }

  lemma ReadyHasNone(tags: seq<string>, st: State, text: string)
    requires Ready(tags, st, text)
    ensures st.toolCallBuf.None?
  {
  }

  /** Where no tool-call closer follows, no call is reported, whatever is being collected. */
  lemma {:induction false} NoCloserNoCalls(tags: seq<string>, st: State, text: string, i: nat)
    requires i <= |text| && NoForm(text, Form(TOOL_CALL, true), i, |text|)
    ensures CallsOf(Told(tags, st, text[i..])) == []
    decreases |text| - i
  {
    hide NoForm, Form, Starts, Scan, Take;
    if i == |text| {
      NothingTold(tags, st);
      assert text[i..] == "";
    } else {
      var t := Take(tags, st, text[i..]);
      QuietTurn(tags, st, text, i);
      TurnAt(tags, st, text, i, t);
      NoFormLater(text, Form(TOOL_CALL, true), i, i + t.width, |text|);
      NoCloserNoCalls(tags, t.next, text, i + t.width);
      ToldPrefixed(tags, st, text[i..], t.events, t.next, text[i + t.width..]);
      CallsOfConcat(t.events, Told(tags, t.next, text[i + t.width..]));
    }
  }

  lemma NothingTold(tags: seq<string>, st: State)
    ensures CallsOf(Told(tags, st, "")) == []
  {
    assert Told(tags, st, "") == [] + Closing(st) == Closing(st);
    if st.currentTag.Some? { CallsOfOne(ReasoningEnd(st.currentTag.value)); }
  }

  lemma QuietTurn(tags: seq<string>, st: State, text: string, i: nat)
    requires i < |text| && NoForm(text, Form(TOOL_CALL, true), i, |text|)
    ensures CallsOf(Take(tags, st, text[i..]).events) == []
  {
    hide Form, Starts;
    var es := Take(tags, st, text[i..]).events;
    assert !Starts(text[i..], Form(TOOL_CALL, true));
    if es != [] {
      CallsOfOne(es[0]);
      assert es == [es[0]];
    }
  }

  lemma NoFormLater(text: string, form: string, lo: nat, mid: nat, hi: nat)
    requires lo <= mid <= hi <= |text| && NoForm(text, form, lo, hi)
    ensures NoForm(text, form, lo, mid) && NoForm(text, form, mid, hi)
  {
    hide Starts;
  }

  // ---- Texts on which both parsers read the same tool calls ----

  /** A `<tool_call>` of this part is still open at its end, and closes somewhere later. */
  predicate Straddles(text: string, lo: nat, hi: nat)
    requires hi <= |text|
  {
    exists p :: lo <= p < hi && Starts(text[p..], Form(TOOL_CALL, false)) &&
                NoForm(text, Form(TOOL_CALL, true), p, hi) && !NoForm(text, Form(TOOL_CALL, true), hi, |text|)
  }

  /** A `<tool_call>` begins behind another one that is not closed before it, and closes in this part. */
  predicate Nests(text: string, lo: nat, hi: nat)
    requires hi <= |text|
  {
    exists p, q :: lo <= p < q < hi && Starts(text[p..], Form(TOOL_CALL, false)) && Starts(text[q..], Form(TOOL_CALL, false)) &&
                   NoForm(text, Form(TOOL_CALL, true), p, q) && !NoForm(text, Form(TOOL_CALL, true), q, hi)
  }

  /** No block opens within a payload that stands outside, and none of a block's payloads holds another opener. */
  predicate Orderly(text: string, regions: seq<Region>) {
    forall r :: r in regions ==>
      r.hi <= |text| && if r.inside.None? then !Straddles(text, r.lo, r.hi) else !Nests(text, r.lo, r.hi)
  }

  /** Two lists that differ at a place, whatever follows. */
  ghost predicate Differ(a: seq<Call>, b: seq<Call>) {
    exists k :: 0 <= k < |a| && k < |b| && a[k] != b[k]
  }

  /** The first call behind the given ones holds the rest of the part and runs to a closer behind it. */
  ghost predicate Swallows(text: string, hi: nat, before: seq<Call>, calls: seq<Call>) {
    && |before| < |calls| && calls[..|before|] == before && Overruns(text, hi, calls[|before|])
  }

  ghost predicate Overruns(text: string, hi: nat, c: Call) {
    exists x: nat, j: nat :: x <= hi <= j <= |text| && c == Call(text[x..j], None) && Starts(text[j..], Form(TOOL_CALL, true))
  }

  // ---- Outside a block ----

  lemma ToTag(tags: seq<string>, text: string, lo: nat, p: nat)
    requires lo <= p <= |text| && NoOpener(tags, text, lo, p) && NoForm(text, Form(TOOL_CALL, false), lo, p)
    ensures CallsOf(Told(tags, INITIAL, text[lo..])) == CallsOf(Told(tags, INITIAL, text[p..]))
  {
    hide *;
    ScanText(tags, text, lo, p);
    ToldPrefixed(tags, INITIAL, text[lo..], Texts(text[lo..p]), INITIAL, text[p..]);
    NoCallsInPlain(text[lo..p]);
    CallsOfConcat(Texts(text[lo..p]), Told(tags, INITIAL, text[p..]));
  }

  lemma PairOutside(tags: seq<string>, text: string, i: nat, j: nat)
    requires i + OpenLen(TOOL_CALL) <= j <= |text| && FirstOpener(tags, text[i..]).None?
    requires Starts(text[i..], Form(TOOL_CALL, false)) && Starts(text[j..], Form(TOOL_CALL, true))
    requires NoForm(text, Form(TOOL_CALL, true), i + OpenLen(TOOL_CALL), j)
    ensures j + CloseLen(TOOL_CALL) <= |text|
    ensures CallsOf(Told(tags, INITIAL, text[i..])) ==
            [Call(text[i + OpenLen(TOOL_CALL)..j], None)] + CallsOf(Told(tags, INITIAL, text[j + CloseLen(TOOL_CALL)..]))
  {
    hide Starts, Form, Told, CallsOf, FirstOpener;
    PairSaysSpan(tags, INITIAL, text, i, j);
    var span := ToolCallSpan(text[i + OpenLen(TOOL_CALL)..j], None);
    CallsOfOne(span);
    CallsOfConcat([span], Told(tags, INITIAL, text[j + CloseLen(TOOL_CALL)..]));
  }

  /** Up to and including the next pair outside. */
  lemma OutsideStep(tags: seq<string>, text: string, lo: nat, hi: nat, s: Span)
    requires lo <= s.start && s.end <= hi <= |text| && SpanFits(text, s)
    requires NoOpener(tags, text, lo, hi) && NoForm(text, Form(TOOL_CALL, false), lo, s.start)
    ensures s.end <= hi && NoOpener(tags, text, s.end, hi)
    ensures CallsOf(Told(tags, INITIAL, text[lo..])) == [Call(s.json, None)] + CallsOf(Told(tags, INITIAL, text[s.end..]))
  {
    hide Told, CallsOf, Starts, Form, FirstOpener, SpanFits, NoForm, NoOpener;
    SpanIsPair(text, s);
    OpenerLater(tags, text, lo, s.start, hi);
    ToTag(tags, text, lo, s.start);
    PairOutside(tags, text, s.start, s.end - CloseLen(TOOL_CALL));
    OpenerLater(tags, text, lo, s.end, hi);
  }

  lemma {:induction false} OutsideWalk(tags: seq<string>, text: string, lo: nat, hi: nat, spans: seq<Span>)
    requires SpansFit(text, lo, hi, None, spans) && NoOpener(tags, text, lo, hi) && Boundary(text, hi)
    ensures !Straddles(text, lo, hi) ==>
              CallsOf(Told(tags, INITIAL, text[lo..])) == Reported(spans) + CallsOf(Told(tags, INITIAL, text[hi..]))
    ensures Straddles(text, lo, hi) ==> Swallows(text, hi, Reported(spans), CallsOf(Told(tags, INITIAL, text[lo..])))
    decreases |spans|
  {
    hide Told, CallsOf, Starts, Form, FirstOpener, Straddles, Swallows, SpanFits, NoForm, NoOpener, NoPair;
    if spans == [] {
      LastOutside(tags, text, lo, hi);
    } else {
      var s := spans[0];
      OutsideStep(tags, text, lo, hi, s);
      OutsideWalk(tags, text, s.end, hi, spans[1..]);
      StraddlesLater(text, lo, hi, s);
      if Straddles(text, lo, hi) {
        SwallowsLater(text, hi, Call(s.json, None), Reported(spans[1..]), CallsOf(Told(tags, INITIAL, text[s.end..])));
      }
    }
  }

  lemma SpanIsPair(text: string, s: Span)
    requires SpanFits(text, s)
    ensures s.start + OpenLen(TOOL_CALL) <= s.end - CloseLen(TOOL_CALL) && s.start < s.end <= |text|
    ensures Starts(text[s.start..], Form(TOOL_CALL, false))
    ensures Starts(text[s.end - CloseLen(TOOL_CALL)..], Form(TOOL_CALL, true))
    ensures s.json == text[s.start + OpenLen(TOOL_CALL)..s.end - CloseLen(TOOL_CALL)]
    ensures NoForm(text, Form(TOOL_CALL, true), s.start, s.end - CloseLen(TOOL_CALL))
    ensures NoForm(text, Form(TOOL_CALL, true), s.start + OpenLen(TOOL_CALL), s.end - CloseLen(TOOL_CALL))
  {
    hide Starts;
  }

  lemma OpenerLater(tags: seq<string>, text: string, lo: nat, mid: nat, hi: nat)
    requires lo <= mid <= hi <= |text| && NoOpener(tags, text, lo, hi)
    ensures NoOpener(tags, text, lo, mid) && NoOpener(tags, text, mid, hi)
    ensures mid < hi ==> FirstOpener(tags, text[mid..]).None?
  {
    hide FirstOpener;
  }

  lemma SwallowsLater(text: string, hi: nat, c: Call, before: seq<Call>, calls: seq<Call>)
    requires Swallows(text, hi, before, calls)
    ensures Swallows(text, hi, [c] + before, [c] + calls)
  {
    hide Overruns;
    assert ([c] + calls)[..|before| + 1] == [c] + calls[..|before|];
  }

  /** Only what begins behind a closed pair can straddle or nest. */
  lemma StraddlesLater(text: string, lo: nat, hi: nat, s: Span)
    requires lo <= s.start && s.end <= hi <= |text| && SpanFits(text, s) && NoForm(text, Form(TOOL_CALL, false), lo, s.start)
    ensures Straddles(text, lo, hi) <==> Straddles(text, s.end, hi)
  {
    hide Starts;
    SpanIsPair(text, s);
    NoTagWithin(text, s.end - CloseLen(TOOL_CALL), true, false);
    assert forall p :: lo <= p <= s.end - CloseLen(TOOL_CALL) && NoForm(text, Form(TOOL_CALL, true), p, hi) ==> false;
    hide Form, NoForm;
  }

  lemma LastOutside(tags: seq<string>, text: string, lo: nat, hi: nat)
    requires lo <= hi && Boundary(text, hi) && NoPair(text, lo, hi) && NoOpener(tags, text, lo, hi)
    ensures !Straddles(text, lo, hi) ==>
              CallsOf(Told(tags, INITIAL, text[lo..])) == CallsOf(Told(tags, INITIAL, text[hi..]))
    ensures Straddles(text, lo, hi) ==> Swallows(text, hi, [], CallsOf(Told(tags, INITIAL, text[lo..])))
  {
    hide Told, CallsOf, Starts, Form, FirstOpener, NoOpener, Swallows;
    var open := NextForm(text, lo, Form(TOOL_CALL, false));
    if open.None? || open.value >= hi {
      ToTag(tags, text, lo, hi);
    } else {
      var p := open.value;
      OpenerLater(tags, text, lo, p, hi);
      ToTag(tags, text, lo, p);
      OpenerNoCloser(text, p);
      assert NoForm(text, Form(TOOL_CALL, true), p, hi);
      if NoForm(text, Form(TOOL_CALL, true), hi, |text|) {
        NoCloserNoCalls(tags, INITIAL, text, p);
        NoCloserNoCalls(tags, INITIAL, text, hi);
      } else {
        var j := NextForm(text, hi, Form(TOOL_CALL, true)).value;
        PairBeyond(text, p, hi, j);
        PairOutside(tags, text, p, j);
        SwallowsNow(text, hi, p + OpenLen(TOOL_CALL), j, CallsOf(Told(tags, INITIAL, text[lo..])));
      }
    }
  }

  lemma PairBeyond(text: string, p: nat, hi: nat, j: nat)
    requires p < hi <= j <= |text| && Starts(text[p..], Form(TOOL_CALL, false)) && Starts(text[j..], Form(TOOL_CALL, true))
    requires NoForm(text, Form(TOOL_CALL, true), p, hi) && NoForm(text, Form(TOOL_CALL, true), hi, j) && Boundary(text, hi)
    ensures p + OpenLen(TOOL_CALL) <= hi && NoForm(text, Form(TOOL_CALL, true), p + OpenLen(TOOL_CALL), j)
  {
    hide Starts;
    TagInterior(text, p, false);
  }

  lemma SwallowsNow(text: string, hi: nat, x: nat, j: nat, calls: seq<Call>)
    requires x <= hi <= j <= |text| && Starts(text[j..], Form(TOOL_CALL, true))
    requires calls != [] && calls[0] == Call(text[x..j], None)
    ensures Swallows(text, hi, [], calls)
  {
    hide Starts, Form;
    assert Overruns(text, hi, calls[0]);
  }

  // ---- Inside a block ----

  predicate BlockEnds(text: string, tag: string, lo: nat, hi: nat) {
    && lo <= hi <= |text| && NoForm(text, Form(tag, true), lo, hi)
    && (hi == |text| || Starts(text[hi..], Form(tag, true)))
  }

  lemma ToTagInside(tags: seq<string>, tag: string, text: string, lo: nat, p: nat)
    requires lo <= p <= |text| && NoForm(text, Form(tag, true), lo, p) && NoForm(text, Form(TOOL_CALL, false), lo, p)
    ensures CallsOf(Told(tags, State(Some(tag), None), text[lo..])) == CallsOf(Told(tags, State(Some(tag), None), text[p..]))
  {
    hide *;
    var st := State(Some(tag), None);
    ScanInside(tags, tag, text, lo, p);
    ToldPrefixed(tags, st, text[lo..], Deltas(text[lo..p]), st, text[p..]);
    NoCallsInPlain(text[lo..p]);
    CallsOfConcat(Deltas(text[lo..p]), Told(tags, st, text[p..]));
  }

  lemma PairInside(tags: seq<string>, tag: string, text: string, i: nat, j: nat)
    requires i + OpenLen(TOOL_CALL) <= j <= |text|
    requires Starts(text[i..], Form(TOOL_CALL, false)) && Starts(text[j..], Form(TOOL_CALL, true))
    requires NoForm(text, Form(TOOL_CALL, true), i + OpenLen(TOOL_CALL), j)
    requires NoForm(text, Form(TOOL_CALL, false), i + OpenLen(TOOL_CALL), j)
    requires NoForm(text, Form(tag, true), i + OpenLen(TOOL_CALL), j) && !Starts(text[j..], Form(tag, true))
    ensures j + CloseLen(TOOL_CALL) <= |text|
    ensures CallsOf(Told(tags, State(Some(tag), None), text[i..])) ==
            [Call(text[i + OpenLen(TOOL_CALL)..j], Some(tag))] +
            CallsOf(Told(tags, State(Some(tag), None), text[j + CloseLen(TOOL_CALL)..]))
  {
    hide Starts, Form, Told, CallsOf, FirstOpener;
    var st := State(Some(tag), None);
    PairSaysSpan(tags, st, text, i, j);
    var span := ToolCallSpan(text[i + OpenLen(TOOL_CALL)..j], Some(tag));
    CallsOfOne(span);
    CallsOfConcat([span], Told(tags, st, text[j + CloseLen(TOOL_CALL)..]));
  }

  /** Another tool-call opener inside a block starts the payload anew. */
  lemma Reopen(tags: seq<string>, tag: string, had: string, text: string, i: nat)
    requires i <= |text| && Starts(text[i..], Form(TOOL_CALL, false))
    ensures i + OpenLen(TOOL_CALL) <= |text|
    ensures Scan(tags, State(Some(tag), Some(had)), text[i..]) ==
            Scan(tags, State(Some(tag), Some("")), text[i + OpenLen(TOOL_CALL)..])
  {
    TagInterior(text, i, false);
    ToolOpenerIsNoCloser(text[i..], tag);
    hide Scan, Starts, Form;
    var next := State(Some(tag), Some(""));
    TurnAt(tags, State(Some(tag), Some(had)), text, i, Turn([], next, OpenLen(TOOL_CALL)));
    NothingPrefixed(Scan(tags, next, text[i + OpenLen(TOOL_CALL)..]));
  }

  lemma CollectInside(tags: seq<string>, tag: string, had: string, text: string, lo: nat, hi: nat)
    requires lo <= hi <= |text| && NoForm(text, Form(tag, true), lo, hi)
    requires NoForm(text, Form(TOOL_CALL, false), lo, hi) && NoForm(text, Form(TOOL_CALL, true), lo, hi)
    ensures Scan(tags, State(Some(tag), Some(had)), text[lo..]) ==
            Scan(tags, State(Some(tag), Some(had + text[lo..hi])), text[hi..])
  {
    hide Starts, Form, Scan;
    Collect(tags, State(Some(tag), Some(had)), text, lo, hi);
  }

  /** The span that a payload inside a block ends with, when other openers begin it anew. */
  lemma {:induction false} RestartedSpan(tags: seq<string>, tag: string, had: string, text: string, k: nat, j: nat)
    requires k <= j <= |text| && Starts(text[j..], Form(TOOL_CALL, true)) && !Starts(text[j..], Form(tag, true))
    requires NoForm(text, Form(TOOL_CALL, true), k, j) && NoForm(text, Form(tag, true), k, j)
    ensures var calls := CallsOf(Told(tags, State(Some(tag), Some(had)), text[k..]));
            && calls != [] && |calls[0].json| <= |had| + (j - k)
            && (!NoForm(text, Form(TOOL_CALL, false), k, j) ==> |calls[0].json| < j - k)
    decreases j - k
  {
    hide Told, CallsOf, Starts, Form, Scan;
    var st := State(Some(tag), Some(had));
    var q := NextForm(text, k, Form(TOOL_CALL, false));
    if q.Some? && q.value < j {
      var next := q.value + OpenLen(TOOL_CALL);
      NoFormLater(text, Form(tag, true), k, q.value, j);
      NoFormLater(text, Form(TOOL_CALL, true), k, q.value, j);
      CollectInside(tags, tag, had, text, k, q.value);
      Reopen(tags, tag, had + text[k..q.value], text, q.value);
      AnyFormIsBoundary(text, j, TOOL_CALL, true);
      EndsBefore(text, q.value, j);
      NoFormLater(text, Form(tag, true), k, next, j);
      NoFormLater(text, Form(TOOL_CALL, true), k, next, j);
      RestartedSpan(tags, tag, "", text, next, j);
      SameScanSameTold(tags, st, text[k..], State(Some(tag), Some("")), text[next..]);
    } else {
      CollectInside(tags, tag, had, text, k, j);
      var full := State(Some(tag), Some(had + text[k..j]));
      ClosePayload(tags, full, text, j);
      var rest := text[j + CloseLen(TOOL_CALL)..];
      var span := ToolCallSpan(had + text[k..j], Some(tag));
      ToldPrefixed(tags, st, text[k..], [span], State(Some(tag), None), rest);
      CallsOfOne(span);
      CallsOfConcat([span], Told(tags, State(Some(tag), None), rest));
    }
  }

  lemma EndsBefore(text: string, q: nat, hi: nat)
    requires q < hi && Boundary(text, hi) && Starts(text[q..], Form(TOOL_CALL, false))
    ensures q + OpenLen(TOOL_CALL) <= hi
  {
    TagInterior(text, q, false);
  }

  lemma SameScanSameTold(tags: seq<string>, st: State, text: string, other: State, rest: string)
    requires Scan(tags, st, text) == Scan(tags, other, rest)
    ensures Told(tags, st, text) == Told(tags, other, rest)
  {
  }

  /** A payload that is not closed within its block is dropped with it. */
  lemma {:induction false} DroppedPayload(tags: seq<string>, tag: string, had: string, text: string, k: nat, hi: nat)
    requires BlockEnds(text, tag, k, hi) && NoForm(text, Form(TOOL_CALL, true), k, hi)
    ensures Told(tags, State(Some(tag), Some(had)), text[k..]) == Told(tags, State(Some(tag), None), text[hi..])
    decreases hi - k
  {
    hide Told, Starts, Form, Scan;
    var st := State(Some(tag), Some(had));
    var q := NextForm(text, k, Form(TOOL_CALL, false));
    if q.Some? && q.value < hi {
      var next := q.value + OpenLen(TOOL_CALL);
      NoFormLater(text, Form(tag, true), k, q.value, hi);
      NoFormLater(text, Form(TOOL_CALL, true), k, q.value, hi);
      CollectInside(tags, tag, had, text, k, q.value);
      Reopen(tags, tag, had + text[k..q.value], text, q.value);
      if hi < |text| { AnyFormIsBoundary(text, hi, tag, true); }
      EndsBefore(text, q.value, hi);
      NoFormLater(text, Form(tag, true), k, next, hi);
      NoFormLater(text, Form(TOOL_CALL, true), k, next, hi);
      DroppedPayload(tags, tag, "", text, next, hi);
      SameScanSameTold(tags, st, text[k..], State(Some(tag), Some("")), text[next..]);
    } else {
      CollectInside(tags, tag, had, text, k, hi);
      var full := State(Some(tag), Some(had + text[k..hi]));
      SameScanSameTold(tags, st, text[k..], full, text[hi..]);
      EndDrops(tags, tag, had + text[k..hi], text, hi);
    }
  }

  /** At the end of its block a payload makes no difference. */
  lemma EndDrops(tags: seq<string>, tag: string, had: string, text: string, hi: nat)
    requires hi <= |text| && (hi == |text| || Starts(text[hi..], Form(tag, true)))
    ensures Told(tags, State(Some(tag), Some(had)), text[hi..]) == Told(tags, State(Some(tag), None), text[hi..])
  {
    if hi < |text| {
      BeginsWithBracket(text[hi..], tag, true);
      hide Starts, Form, Scan;
      TurnAt(tags, State(Some(tag), Some(had)), text, hi, Turn([ReasoningEnd(tag)], INITIAL, CloseLen(tag)));
      TurnAt(tags, State(Some(tag), None), text, hi, Turn([ReasoningEnd(tag)], INITIAL, CloseLen(tag)));
    }
  }

  lemma NestsLater(text: string, lo: nat, hi: nat, s: Span)
    requires lo <= s.start && s.end <= hi <= |text| && SpanFits(text, s) && NoForm(text, Form(TOOL_CALL, false), lo, s.start)
    requires NoForm(text, Form(TOOL_CALL, false), s.start + 1, s.end - CloseLen(TOOL_CALL))
    ensures Nests(text, lo, hi) <==> Nests(text, s.end, hi)
  {
    hide Starts;
    SpanIsPair(text, s);
    var at := s.end - CloseLen(TOOL_CALL);
    NoTagWithin(text, at, true, false);
    ToolOpenerNotCloser(text, at);
    assert forall q :: lo <= q < s.end && Starts(text[q..], Form(TOOL_CALL, false)) ==> q == s.start;
    assert forall q :: at < q <= |text| && NoForm(text, Form(TOOL_CALL, true), s.start, q) ==> false;
    hide Form, NoForm;
  }

  lemma ToolOpenerNotCloser(text: string, at: nat)
    requires at <= |text| && Starts(text[at..], Form(TOOL_CALL, true))
    ensures !Starts(text[at..], Form(TOOL_CALL, false))
  {
    if Starts(text[at..], Form(TOOL_CALL, false)) { ToolOpenerIsNoCloser(text[at..], TOOL_CALL); }
  }

  lemma {:induction false} InsideWalk(tags: seq<string>, tag: string, text: string, lo: nat, hi: nat, spans: seq<Span>)
    requires SpansFit(text, lo, hi, Some(tag), spans) && BlockEnds(text, tag, lo, hi)
    ensures !Nests(text, lo, hi) ==>
              CallsOf(Told(tags, State(Some(tag), None), text[lo..])) ==
              Reported(spans) + CallsOf(Told(tags, State(Some(tag), None), text[hi..]))
    ensures Nests(text, lo, hi) ==> Differ(Reported(spans), CallsOf(Told(tags, State(Some(tag), None), text[lo..])))
    decreases |spans|
  {
    hide Told, CallsOf, Starts, Form, FirstOpener, Nests, Differ, SpanFits, NoForm;
    if spans == [] {
      LastInside(tags, tag, text, lo, hi);
    } else {
      var s := spans[0];
      SpanIsPair(text, s);
      NoFormLater(text, Form(tag, true), lo, s.start, hi);
      ToTagInside(tags, tag, text, lo, s.start);
      if NoForm(text, Form(TOOL_CALL, false), s.start + 1, s.end - CloseLen(TOOL_CALL)) {
        CloserBefore(text, tag, lo, hi, s);
        PairInside(tags, tag, text, s.start, s.end - CloseLen(TOOL_CALL));
        InsideWalk(tags, tag, text, s.end, hi, spans[1..]);
        NestsLater(text, lo, hi, s);
        if Nests(text, lo, hi) {
          var c, later := Call(s.json, s.insideTag), CallsOf(Told(tags, State(Some(tag), None), text[s.end..]));
          DifferLater(c, Reported(spans[1..]), later);
        }
      } else {
        NestedPair(tags, tag, text, lo, hi, s);
        DifferNow(Reported(spans), CallsOf(Told(tags, State(Some(tag), None), text[lo..])));
      }
    }
  }

  lemma DifferNow(a: seq<Call>, b: seq<Call>)
    requires a != [] && b != [] && a[0] != b[0]
    ensures Differ(a, b)
  {
  }

  lemma DifferLater(c: Call, a: seq<Call>, b: seq<Call>)
    requires Differ(a, b)
    ensures Differ([c] + a, [c] + b)
  {
    var k :| 0 <= k < |a| && k < |b| && a[k] != b[k];
    assert ([c] + a)[k + 1] != ([c] + b)[k + 1];
  }

  /** The closer of a pair in a block stands before the block's end. */
  lemma CloserBefore(text: string, tag: string, lo: nat, hi: nat, s: Span)
    requires BlockEnds(text, tag, lo, hi) && lo <= s.start && s.end <= hi && SpanFits(text, s)
    ensures var inner, at := s.start + OpenLen(TOOL_CALL), s.end - CloseLen(TOOL_CALL);
            && inner <= at < s.end
            && NoForm(text, Form(tag, true), inner, at) && !Starts(text[at..], Form(tag, true))
            && (NoForm(text, Form(TOOL_CALL, false), s.start + 1, at) ==> NoForm(text, Form(TOOL_CALL, false), inner, at))
            && BlockEnds(text, tag, s.end, hi)
  {
    hide Starts;
  }

  lemma NestedPair(tags: seq<string>, tag: string, text: string, lo: nat, hi: nat, s: Span)
    requires BlockEnds(text, tag, lo, hi) && lo <= s.start && s.end <= hi && SpanFits(text, s)
    requires !NoForm(text, Form(TOOL_CALL, false), s.start + 1, s.end - CloseLen(TOOL_CALL))
    ensures Nests(text, lo, hi)
    ensures var calls := CallsOf(Told(tags, State(Some(tag), None), text[s.start..]));
            calls != [] && calls[0] != Call(s.json, Some(tag))
  {
    hide Told, CallsOf, Starts, Form, Nests, Scan;
    var inner, at := s.start + OpenLen(TOOL_CALL), s.end - CloseLen(TOOL_CALL);
    CloserBefore(text, tag, lo, hi, s);
    SpanIsPair(text, s);
    NoTagWithin(text, s.start, false, false);
    assert !NoForm(text, Form(TOOL_CALL, false), inner, at);
    NestsAt(text, lo, hi, s);
    OpenPayload(tags, State(Some(tag), None), text, s.start);
    RestartedSpan(tags, tag, "", text, inner, at);
    SameScanSameTold(tags, State(Some(tag), None), text[s.start..], State(Some(tag), Some("")), text[inner..]);
  }

  lemma NestsAt(text: string, lo: nat, hi: nat, s: Span)
    requires lo <= s.start && s.end <= hi <= |text| && SpanFits(text, s)
    requires !NoForm(text, Form(TOOL_CALL, false), s.start + 1, s.end - CloseLen(TOOL_CALL))
    ensures Nests(text, lo, hi)
  {
    hide Starts, Form;
    SpanIsPair(text, s);
    var at := s.end - CloseLen(TOOL_CALL);
    var q :| s.start + 1 <= q < at && Starts(text[q..], Form(TOOL_CALL, false));
    NoFormLater(text, Form(TOOL_CALL, true), s.start, q, at);
    assert Starts(text[s.start..], Form(TOOL_CALL, false));
    assert !NoForm(text, Form(TOOL_CALL, true), q, hi) by { assert Starts(text[at..], Form(TOOL_CALL, true)); }
  }

  lemma LastInside(tags: seq<string>, tag: string, text: string, lo: nat, hi: nat)
    requires BlockEnds(text, tag, lo, hi) && NoPair(text, lo, hi)
    ensures !Nests(text, lo, hi)
    ensures CallsOf(Told(tags, State(Some(tag), None), text[lo..])) == CallsOf(Told(tags, State(Some(tag), None), text[hi..]))
  {
    hide Told, CallsOf, Starts, Form, Scan;
    var st := State(Some(tag), None);
    var open := NextForm(text, lo, Form(TOOL_CALL, false));
    if open.None? || open.value >= hi {
      ToTagInside(tags, tag, text, lo, hi);
    } else {
      var p := open.value;
      NoFormLater(text, Form(tag, true), lo, p, hi);
      ToTagInside(tags, tag, text, lo, p);
      if hi < |text| { AnyFormIsBoundary(text, hi, tag, true); }
      EndsBefore(text, p, hi);
      var inner := p + OpenLen(TOOL_CALL);
      OpenPayload(tags, st, text, p);
      SameScanSameTold(tags, st, text[p..], State(Some(tag), Some("")), text[inner..]);
      NoFormLater(text, Form(tag, true), lo, inner, hi);
      DroppedPayload(tags, tag, "", text, inner, hi);
    }
  }

  /** The end of a block reports no call. */
  lemma EndOfBlock(tags: seq<string>, tag: string, text: string, hi: nat)
    requires hi <= |text| && (hi == |text| || Starts(text[hi..], Form(tag, true)))
    ensures hi == |text| ==> CallsOf(Told(tags, State(Some(tag), None), text[hi..])) == []
    ensures hi < |text| ==>
              && hi + CloseLen(tag) <= |text|
              && CallsOf(Told(tags, State(Some(tag), None), text[hi..])) ==
                 CallsOf(Told(tags, INITIAL, text[hi + CloseLen(tag)..]))
  {
    hide Told, CallsOf, Starts, Form;
    if hi == |text| {
      assert text[hi..] == "";
      NothingTold(tags, State(Some(tag), None));
    } else {
      CloseStep(tags, text, hi, tag);
      var rest := text[hi + CloseLen(tag)..];
      ToldPrefixed(tags, State(Some(tag), None), text[hi..], [ReasoningEnd(tag)], INITIAL, rest);
      CallsOfOne(ReasoningEnd(tag));
      CallsOfConcat([ReasoningEnd(tag)], Told(tags, INITIAL, rest));
    }
  }

  // ---- Streaming against the one-shot parser ----

  /** Names whose opener cannot reach into, or be, a tool-call closer. */
  predicate PlainNames(tags: seq<string>) {
    forall t :: t in tags ==> t != "" && '<' !in t && '/' !in t
  }

  /** What is reported outside a block lies where no block opens. */
  predicate OutsideIsPlain(tags: seq<string>, text: string, s: Span) {
    s.insideTag.None? ==> SpanFits(text, s) && NoOpener(tags, text, s.start, s.end)
  }

  lemma {:induction false} RegionIsPlain(tags: seq<string>, text: string, lo: nat, hi: nat, inside: Option<string>,
                                               spans: seq<Span>)
    requires SpansFit(text, lo, hi, inside, spans) && (inside.None? ==> NoOpener(tags, text, lo, hi))
    ensures forall s :: s in spans ==> OutsideIsPlain(tags, text, s)
    decreases |spans|
  {
    hide SpanFits, NoForm, FirstOpener;
    if spans != [] {
      SpanIsPair(text, spans[0]);
      RegionIsPlain(tags, text, spans[0].end, hi, inside, spans[1..]);
      assert spans == [spans[0]] + spans[1..];
    }
  }

  lemma {:induction false} ParsedIsPlain(tags: seq<string>, text: string, cursor: nat)
    requires cursor <= |text|
    ensures forall s :: s in Parse(tags, text, cursor).toolCallSpans ==> OutsideIsPlain(tags, text, s)
    decreases |text| - cursor
  {
    hide OutsideIsPlain, SpansFit, Parse, Regions, RegionsFit, Unclosed, Spans, FirstOpener, Starts, Form, NoForm;
    if cursor == |text| || NextOpener(tags, text, cursor).None? {
      RegionsPlain(tags, text, cursor);
      SlicedSpansFit(text, cursor, |text|, 0, None);
      RegionIsPlain(tags, text, cursor, |text|, None, Spans(text[cursor..|text|], 0, cursor, None));
    } else {
      var open := NextOpener(tags, text, cursor).value;
      var inner := open.start + OpenLen(open.tag);
      AnyFormIsBoundary(text, open.start, open.tag, false);
      SlicedSpansFit(text, cursor, open.start, 0, None);
      RegionIsPlain(tags, text, cursor, open.start, None, Spans(text[cursor..open.start], 0, cursor, None));
      match NextForm(text, inner, Form(open.tag, true))
      case None =>
        RegionsUnclosed(tags, text, cursor, open);
        SlicedSpansFit(text, inner, |text|, 0, Some(open.tag));
        RegionIsPlain(tags, text, inner, |text|, Some(open.tag), Spans(text[inner..|text|], 0, inner, Some(open.tag)));
      case Some(close) =>
        ParseSpansFit(tags, text, close + CloseLen(open.tag));
        RegionsClosed(tags, text, cursor, open, close);
        AnyFormIsBoundary(text, close, open.tag, true);
        SlicedSpansFit(text, inner, close, 0, Some(open.tag));
        RegionIsPlain(tags, text, inner, close, Some(open.tag), Spans(text[inner..close], 0, inner, Some(open.tag)));
        ParsedIsPlain(tags, text, close + CloseLen(open.tag));
    }
  }

  lemma FormIsLower(text: string, at: nat, form: string, k: nat)
    requires at <= |text| && Starts(text[at..], form) && k < |form|
    ensures at + k < |text| && LowerChar(text[at + k]) == form[k]
  {
    assert Lower(text[at..][..|form|])[k] == LowerChar(text[at..][..|form|][k]);
  }

  /** An opener ends before a tool-call closer that does not begin before it. */
  lemma OpenerBeforeCloser(tags: seq<string>, text: string, hi: nat, j: nat)
    requires PlainNames(tags) && hi <= j <= |text|
    requires FirstOpener(tags, text[hi..]).Some? && Starts(text[j..], Form(TOOL_CALL, true))
    ensures hi + OpenLen(FirstOpener(tags, text[hi..]).value) <= j
  {
    hide Starts, Lower;
    var tag := FirstOpener(tags, text[hi..]).value;
    FormIsLower(text, j, Form(TOOL_CALL, true), 0);
    FormIsLower(text, j, Form(TOOL_CALL, true), 1);
    FormIsLower(text, hi, Form(tag, false), 1);
    FormIsLower(text, hi, Form(tag, false), OpenLen(tag) - 1);
    FormChars(tag, false, 1);
    assert tag[0] in tag;
    forall q | hi < q < hi + OpenLen(tag) ensures LowerChar(text[q]) != '<' {
      FormIsLower(text, hi, Form(tag, false), q - hi);
      FormChars(tag, false, q - hi);
      if q - hi < OpenLen(tag) - 1 { assert tag[q - hi - 1] in tag; }
    }
  }

  /** A call that holds the opener of a block is none that is reported outside a block. */
  lemma OverrunIsNone(tags: seq<string>, text: string, hi: nat, c: Call, s: Span)
    requires PlainNames(tags) && hi <= |text| && FirstOpener(tags, text[hi..]).Some?
    requires Overruns(text, hi, c) && OutsideIsPlain(tags, text, s)
    ensures c != Call(s.json, s.insideTag)
  {
    hide Starts, Form, SpanFits, FirstOpener, PlainNames;
    var x: nat, j: nat :| x <= hi <= j <= |text| && c == Call(text[x..j], None) && Starts(text[j..], Form(TOOL_CALL, true));
    OpenerBeforeCloser(tags, text, hi, j);
    if c == Call(s.json, s.insideTag) {
      SpanIsPair(text, s);
      OpensAlike(tags, text, x, j, s.start + OpenLen(TOOL_CALL), hi - x);
    }
  }

  /** An opener within a stretch of text opens within any equal stretch. */
  lemma OpensAlike(tags: seq<string>, text: string, x: nat, j: nat, y: nat, k: nat)
    requires x <= j <= |text| && y + (j - x) <= |text| && text[x..j] == text[y..y + (j - x)] && x + k <= j
    requires FirstOpener(tags, text[x + k..]).Some? && x + k + OpenLen(FirstOpener(tags, text[x + k..]).value) <= j
    ensures FirstOpener(tags, text[y + k..]).Some?
  {
    hide Form;
    var tag := FirstOpener(tags, text[x + k..]).value;
    var n := OpenLen(tag);
    SliceOfSlice(text, x, j, k, k + n);
    SliceOfSlice(text, y, y + (j - x), k, k + n);
    assert text[x + k..][..n] == text[x + k..x + k + n] && text[y + k..][..n] == text[y + k..y + k + n];
  }

  /** A stream that swallows an opener differs from what the one-shot parser goes on to report. */
  lemma SwallowDiffers(tags: seq<string>, text: string, hi: nat, before: seq<Call>, calls: seq<Call>, later: seq<Span>)
    requires PlainNames(tags) && hi <= |text| && FirstOpener(tags, text[hi..]).Some?
    requires Swallows(text, hi, before, calls) && forall s :: s in later ==> OutsideIsPlain(tags, text, s)
    ensures calls != before + Reported(later)
  {
    hide OutsideIsPlain, Overruns, FirstOpener;
    if later == [] {
      assert before + Reported(later) == before;
    } else {
      OverrunIsNone(tags, text, hi, calls[|before|], later[0]);
      assert (before + Reported(later))[|before|] == Call(later[0].json, later[0].insideTag);
    }
  }

  lemma DifferAhead(a: seq<Call>, b: seq<Call>, rest: seq<Call>)
    requires Differ(a, b)
    ensures a + rest != b
  {
    var k :| 0 <= k < |a| && k < |b| && a[k] != b[k];
    assert (a + rest)[k] == a[k];
  }

  lemma SameFront(front: seq<Call>, a: seq<Call>, b: seq<Call>)
    ensures front + a == front + b <==> a == b
  {
    assert (front + a)[|front|..] == a && (front + b)[|front|..] == b;
  }

  /** Streamed and reported calls are the same from the cursor on. */
  ghost predicate SameCalls(tags: seq<string>, text: string, cursor: nat)
    requires cursor <= |text|
  {
    CallsOf(Told(tags, INITIAL, text[cursor..])) == Reported(Parse(tags, text, cursor).toolCallSpans)
  }

  predicate OrderlyFrom(tags: seq<string>, text: string, cursor: nat)
    requires cursor <= |text|
  {
    Orderly(text, Regions(text, cursor, Parse(tags, text, cursor).blocks, Unclosed(tags, text, cursor)))
  }

  lemma {:induction false} CallsAgree(tags: seq<string>, text: string, cursor: nat)
    requires cursor <= |text| && "" !in tags
    ensures OrderlyFrom(tags, text, cursor) ==> SameCalls(tags, text, cursor)
    ensures PlainNames(tags) && SameCalls(tags, text, cursor) ==> OrderlyFrom(tags, text, cursor)
    decreases |text| - cursor
  {
    hide SameCalls, OrderlyFrom, PlainNames, NextForm, NextOpener, NoForm, NoOpener, FirstOpener, Starts, Form;
    if cursor == |text| || NextOpener(tags, text, cursor).None? {
      AgreePlain(tags, text, cursor);
    } else {
      var open := NextOpener(tags, text, cursor).value;
      match NextForm(text, open.start + OpenLen(open.tag), Form(open.tag, true))
      case None => AgreeUnclosed(tags, text, cursor, open);
      case Some(close) =>
        CallsAgree(tags, text, close + CloseLen(open.tag));
        AgreeClosed(tags, text, cursor, open, close);
    }
  }

  lemma AgreePlain(tags: seq<string>, text: string, cursor: nat)
    requires cursor <= |text| && (cursor == |text| || NextOpener(tags, text, cursor).None?)
    ensures OrderlyFrom(tags, text, cursor) && SameCalls(tags, text, cursor)
  {
    hide Told, CallsOf, Starts, Form, FirstOpener, Spans, Regions, RegionsFit, SpansFit, Parse, Unclosed;
    RegionsPlain(tags, text, cursor);
    SlicedSpansFit(text, cursor, |text|, 0, None);
    OutsideWalk(tags, text, cursor, |text|, Spans(text[cursor..|text|], 0, cursor, None));
    assert text[|text|..] == "";
    NothingTold(tags, INITIAL);
    NothingStraddlesEnd(text, cursor);
  }

  lemma NothingStraddlesEnd(text: string, lo: nat)
    ensures !Straddles(text, lo, |text|)
  {
  }

  lemma OpenCalls(tags: seq<string>, text: string, i: nat, tag: string)
    requires i <= |text| && FirstOpener(tags, text[i..]) == Some(tag) && tag != ""
    ensures i + OpenLen(tag) <= |text|
    ensures CallsOf(Told(tags, INITIAL, text[i..])) == CallsOf(Told(tags, State(Some(tag), None), text[i + OpenLen(tag)..]))
  {
    hide Told, CallsOf, Starts, Form, FirstOpener;
    OpenStep(tags, text, i, tag);
    var st, rest := State(Some(tag), None), text[i + OpenLen(tag)..];
    ToldPrefixed(tags, INITIAL, text[i..], [ReasoningStart(tag)], st, rest);
    CallsOfOne(ReasoningStart(tag));
    CallsOfConcat([ReasoningStart(tag)], Told(tags, st, rest));
  }

  /** From the cursor up to and into the next block. */
  lemma ToBlock(tags: seq<string>, text: string, cursor: nat, open: Opener, head: seq<Span>)
    requires cursor <= |text| && NextOpener(tags, text, cursor) == Some(open) && open.tag != ""
    requires SpansFit(text, cursor, open.start, None, head)
    ensures FirstOpener(tags, text[open.start..]).Some?
    ensures var calls := CallsOf(Told(tags, INITIAL, text[cursor..]));
            var there := CallsOf(Told(tags, State(Some(open.tag), None), text[open.start + OpenLen(open.tag)..]));
            if Straddles(text, cursor, open.start) then Swallows(text, open.start, Reported(head), calls)
            else calls == Reported(head) + there
  {
    hide Told, CallsOf, Starts, Form, FirstOpener, Straddles, SpansFit, Swallows, NextOpener, Reported;
    assert FirstOpener(tags, text[open.start..]) == Some(open.tag);
    AnyFormIsBoundary(text, open.start, open.tag, false);
    OutsideWalk(tags, text, cursor, open.start, head);
    OpenCalls(tags, text, open.start, open.tag);
  }

  /** What was found through a block, against what the one-shot parser reports from the cursor on. */
  lemma Compare(tags: seq<string>, text: string, at: nat, straddles: bool, nests: bool,
                calls: seq<Call>, there: seq<Call>, rest: seq<Call>, head: seq<Span>, body: seq<Span>, later: seq<Span>)
    requires at <= |text| && FirstOpener(tags, text[at..]).Some?
    requires forall s :: s in body + later ==> OutsideIsPlain(tags, text, s)
    requires if straddles then Swallows(text, at, Reported(head), calls) else calls == Reported(head) + there
    requires if nests then Differ(Reported(body), there) else there == Reported(body) + rest
    ensures !straddles && !nests ==> (calls == Reported(head + (body + later)) <==> rest == Reported(later))
    ensures PlainNames(tags) && (straddles || nests) ==> calls != Reported(head + (body + later))
  {
    hide FirstOpener, OutsideIsPlain, Differ, Swallows, PlainNames, Reported;
    ReportedConcat(head, body + later);
    ReportedConcat(body, later);
    if straddles {
      if PlainNames(tags) { SwallowDiffers(tags, text, at, Reported(head), calls, body + later); }
    } else {
      SameFront(Reported(head), there, Reported(body) + Reported(later));
      if nests {
        DifferAhead(Reported(body), there, Reported(later));
      } else {
        SameFront(Reported(body), rest, Reported(later));
      }
    }
  }

  lemma AgreeUnclosed(tags: seq<string>, text: string, cursor: nat, open: Opener)
    requires cursor < |text| && NextOpener(tags, text, cursor) == Some(open) && "" !in tags
    requires NextForm(text, open.start + OpenLen(open.tag), Form(open.tag, true)) == None
    ensures OrderlyFrom(tags, text, cursor) ==> SameCalls(tags, text, cursor)
    ensures PlainNames(tags) && SameCalls(tags, text, cursor) ==> OrderlyFrom(tags, text, cursor)
  {
    hide Told, CallsOf, Starts, Form, FirstOpener, Straddles, Nests, SpansFit, OutsideIsPlain, PlainNames,
         NextOpener, NextForm, Reported, Spans, Parse, Unclosed, Regions, RegionsFit;
    var inner := open.start + OpenLen(open.tag);
    var head, body := Spans(text[cursor..open.start], 0, cursor, None), Spans(text[inner..|text|], 0, inner, Some(open.tag));
    assert open.tag in tags by { assert FirstOpener(tags, text[open.start..]) == Some(open.tag); }
    RegionsUnclosed(tags, text, cursor, open);
    AnyFormIsBoundary(text, open.start, open.tag, false);
    SlicedSpansFit(text, cursor, open.start, 0, None);
    SlicedSpansFit(text, inner, |text|, 0, Some(open.tag));
    RegionIsPlain(tags, text, inner, |text|, Some(open.tag), body);
    assert body + [] == body;
    ToBlock(tags, text, cursor, open, head);
    InsideWalk(tags, open.tag, text, inner, |text|, body);
    EndOfBlock(tags, open.tag, text, |text|);
    Compare(tags, text, open.start, Straddles(text, cursor, open.start), Nests(text, inner, |text|),
            CallsOf(Told(tags, INITIAL, text[cursor..])), CallsOf(Told(tags, State(Some(open.tag), None), text[inner..])),
            [], head, body, []);
    NothingReported();
    var first, last := Region(cursor, open.start, None), Region(inner, |text|, Some(open.tag));
    assert [first, last][0] == first && [first, last][1] == last;
  }

  lemma NothingReported()
    ensures Reported([]) == []
  {
  }

  lemma AgreeClosed(tags: seq<string>, text: string, cursor: nat, open: Opener, close: nat)
    requires cursor < |text| && NextOpener(tags, text, cursor) == Some(open) && "" !in tags
    requires NextForm(text, open.start + OpenLen(open.tag), Form(open.tag, true)) == Some(close)
    requires OrderlyFrom(tags, text, close + CloseLen(open.tag)) ==> SameCalls(tags, text, close + CloseLen(open.tag))
    requires PlainNames(tags) && SameCalls(tags, text, close + CloseLen(open.tag)) ==>
               OrderlyFrom(tags, text, close + CloseLen(open.tag))
    ensures OrderlyFrom(tags, text, cursor) ==> SameCalls(tags, text, cursor)
    ensures PlainNames(tags) && SameCalls(tags, text, cursor) ==> OrderlyFrom(tags, text, cursor)
  {
    hide Told, CallsOf, Starts, Form, FirstOpener, Straddles, Nests, SpansFit, OutsideIsPlain, PlainNames,
         NextOpener, NextForm, Reported, Spans, Parse, Unclosed, Regions, RegionsFit, Orderly;
    var inner, next := open.start + OpenLen(open.tag), close + CloseLen(open.tag);
    var later := Parse(tags, text, next);
    var head, body := Spans(text[cursor..open.start], 0, cursor, None), Spans(text[inner..close], 0, inner, Some(open.tag));
    assert open.tag in tags by { assert FirstOpener(tags, text[open.start..]) == Some(open.tag); }
    ParseSpansFit(tags, text, next);
    RegionsClosed(tags, text, cursor, open, close);
    AnyFormIsBoundary(text, open.start, open.tag, false);
    AnyFormIsBoundary(text, close, open.tag, true);
    SlicedSpansFit(text, cursor, open.start, 0, None);
    SlicedSpansFit(text, inner, close, 0, Some(open.tag));
    RegionIsPlain(tags, text, inner, close, Some(open.tag), body);
    ParsedIsPlain(tags, text, next);
    ToBlock(tags, text, cursor, open, head);
    InsideWalk(tags, open.tag, text, inner, close, body);
    EndOfBlock(tags, open.tag, text, close);
    Compare(tags, text, open.start, Straddles(text, cursor, open.start), Nests(text, inner, close),
            CallsOf(Told(tags, INITIAL, text[cursor..])), CallsOf(Told(tags, State(Some(open.tag), None), text[inner..])),
            CallsOf(Told(tags, INITIAL, text[next..])), head, body, later.toolCallSpans);
    OrderlyStep(text, Region(cursor, open.start, None), Region(inner, close, Some(open.tag)),
                Regions(text, next, later.blocks, Unclosed(tags, text, next)));
  }

  lemma OrderlyStep(text: string, first: Region, second: Region, later: seq<Region>)
    requires first.hi <= |text| && second.hi <= |text| && first.inside.None? && second.inside.Some?
    ensures Orderly(text, [first] + ([second] + later)) <==>
            !Straddles(text, first.lo, first.hi) && !Nests(text, second.lo, second.hi) && Orderly(text, later)
  {
    hide Straddles, Nests;
    var all := [first] + ([second] + later);
    assert all[0] == first && all[1] == second;
  }

  /**
   On every text and every cutting into chunks that is steady: the streamed calls, with their payloads and blocks,
   are those that the one-shot parser reports if, and for plain names only if, no block opens within a payload
   outside and no payload in a block holds another opener.
   */
  lemma StreamedCallsExactly(tags: seq<string>, chunks: seq<string>)
    requires LowerCase(tags) && "" !in tags && Steady(tags, Concat(chunks))
    ensures var text := Concat(chunks);
            var same := CallsOf(Run(tags, INITIAL, "", chunks)) == Reported(Parse(tags, text, 0).toolCallSpans);
            (OrderlyFrom(tags, text, 0) ==> same) && (PlainNames(tags) && same ==> OrderlyFrom(tags, text, 0))
  {
    hide Run, Merge, Told, CallsOf, Parse, Steady, OrderlyFrom, PlainNames;
    var text := Concat(chunks);
    assert "" + text == text == text[0..];
    RunMeaning(tags, INITIAL, "", chunks);
    CallsMerged(Run(tags, INITIAL, "", chunks));
    CallsMerged(Told(tags, INITIAL, text));
    CallsAgree(tags, text, 0);
  }

  /** However it is cut, a pair of tool-call tags is streamed as one span with the text between them. */
  lemma PairStreamed(tags: seq<string>, st: State, chunks: seq<string>, j: nat)
    requires LowerCase(tags) && Steady(tags, Concat(chunks)) && ValidState(tags, st)
    requires OpenLen(TOOL_CALL) <= j <= |Concat(chunks)| && Ready(tags, st, Concat(chunks))
    requires Starts(Concat(chunks), Form(TOOL_CALL, false)) && Starts(Concat(chunks)[j..], Form(TOOL_CALL, true))
    requires forall k :: OpenLen(TOOL_CALL) <= k < j ==> Collects(st, Concat(chunks), k)
    requires st.currentTag.Some? ==> !Starts(Concat(chunks)[j..], Form(st.currentTag.value, true))
    ensures j + CloseLen(TOOL_CALL) <= |Concat(chunks)|
    ensures var text := Concat(chunks);
            Merge(Run(tags, st, "", chunks)) ==
            Merge([ToolCallSpan(text[OpenLen(TOOL_CALL)..j], st.currentTag)] + Told(tags, st, text[j + CloseLen(TOOL_CALL)..]))
  {
    hide Run, Merge, Told, Steady, Starts, Form, Collects, Ready, ValidState;
    var text := Concat(chunks);
    assert "" + text == text == text[0..];
    RunMeaning(tags, st, "", chunks);
    PairSaysSpan(tags, st, text, 0, j);
  }
}
