/**
 The one-shot reasoning parser (`parseReasoningBlocks` and its helpers,
 packages/core/src/reasoning-blocks.ts:118-186, 482-583).

 The loops of the source are methods proved against the functions `NextOpener`, `NextForm`,
 `Spans` and `Parse`; what the source promises about blocks, ranges, the stripped text and the
 tool-call spans is then proved of those functions.
 */
module BatchParser {
  import opened Options
  import opened ReasoningTags

  datatype ReasoningBlock = ReasoningBlock(tag: string, content: string, start: nat, end: nat)
  datatype Span = Span(start: nat, end: nat, json: string, insideTag: Option<string>)
  datatype ParseResult = ParseResult(stripped: string, blocks: seq<ReasoningBlock>, toolCallSpans: seq<Span>)

  datatype Opener = Opener(start: nat, tag: string)

  function OpenLen(tag: string): nat { |Form(tag, false)| }
  function CloseLen(tag: string): nat { |Form(tag, true)| }

  predicate NoOpener(tags: seq<string>, text: string, from: nat, to: nat)
    requires to <= |text|
  {
    forall k :: from <= k < to ==> FirstOpener(tags, text[k..]).None?
  }

  predicate NoForm(text: string, form: string, from: nat, to: nat)
    requires to <= |text|
  {
    forall k :: from <= k < to ==> !Starts(text[k..], form)
  }

  /** The first position at or after `from` where some opener begins, and the first tag it matches. */
  function NextOpener(tags: seq<string>, text: string, from: nat): (r: Option<Opener>)
    requires from <= |text|
    ensures r.None? ==> NoOpener(tags, text, from, |text|)
    ensures r.Some? ==>
              && from <= r.value.start && r.value.start + OpenLen(r.value.tag) <= |text|
              && FirstOpener(tags, text[r.value.start..]) == Some(r.value.tag)
              && NoOpener(tags, text, from, r.value.start)
    decreases |text| - from
  {
    if from == |text| then None
    else match FirstOpener(tags, text[from..])
         case Some(tag) => Some(Opener(from, tag))
         case None => NextOpener(tags, text, from + 1)
  }

  /** The first position at or after `from` where the form begins. */
  function NextForm(text: string, from: nat, form: string): (r: Option<nat>)
    requires from <= |text| && form != ""
    ensures r.None? ==> NoForm(text, form, from, |text|)
    ensures r.Some? ==>
              && from <= r.value && r.value + |form| <= |text|
              && Starts(text[r.value..], form) && NoForm(text, form, from, r.value)
    decreases |text| - from
  {
    if from == |text| then None
    else if Starts(text[from..], form) then Some(from)
    else NextForm(text, from + 1, form)
  }

  function Spans(slice: string, i: nat, base: nat, inside: Option<string>): (spans: seq<Span>)
    requires i <= |slice|
    decreases |slice| - i
  {
    if i == |slice| then []
    else if !Starts(slice[i..], Form(TOOL_CALL, false)) then Spans(slice, i + 1, base, inside)
    else
      var openEnd := i + OpenLen(TOOL_CALL);
      match NextForm(slice, openEnd, Form(TOOL_CALL, true))
      case None => Spans(slice, openEnd, base, inside)
      case Some(j) =>
        var end := j + CloseLen(TOOL_CALL);
        [Span(base + i, base + end, slice[openEnd..j], inside)] + Spans(slice, end, base, inside)
  }

  function Join(a: ParseResult, b: ParseResult): ParseResult {
    ParseResult(a.stripped + b.stripped, a.blocks + b.blocks, a.toolCallSpans + b.toolCallSpans)
  }

  const EMPTY := ParseResult("", [], [])

  /** A stretch of text that survives into `stripped`, with the spans found in it. */
  function Kept(text: string, from: nat, to: nat, inside: Option<string>): ParseResult
    requires from <= to <= |text|
  {
    ParseResult(text[from..to], [], Spans(text[from..to], 0, from, inside))
  }

  /** A closed block, with the spans found in its content. */
  function Block(text: string, tag: string, start: nat, innerEnd: nat): ParseResult
    requires start + OpenLen(tag) <= innerEnd <= |text|
  {
    var innerStart := start + OpenLen(tag);
    var inner := text[innerStart..innerEnd];
    ParseResult("", [ReasoningBlock(tag, inner, start, innerEnd + CloseLen(tag))],
                Spans(inner, 0, innerStart, Some(tag)))
  }

  /** What the loop still adds from the cursor on. */
  function Parse(tags: seq<string>, text: string, cursor: nat): ParseResult
    requires cursor <= |text|
    decreases |text| - cursor
  {
    if cursor == |text| then EMPTY
    else match NextOpener(tags, text, cursor)
         case None => Kept(text, cursor, |text|, None)
         case Some(open) =>
           var inner := open.start + OpenLen(open.tag);
           var head := Kept(text, cursor, open.start, None);
           match NextForm(text, inner, Form(open.tag, true))
           case None => Join(head, Kept(text, inner, |text|, Some(open.tag)))
           case Some(close) =>
             Join(Join(head, Block(text, open.tag, open.start, close)),
                  Parse(tags, text, close + CloseLen(open.tag)))
  }

  /** The opener whose closer is missing, if the parser takes its unclosed-block exit. */
  function Unclosed(tags: seq<string>, text: string, cursor: nat): (r: Option<Opener>)
    requires cursor <= |text|
    ensures r.Some? ==> cursor <= r.value.start && r.value.start + OpenLen(r.value.tag) <= |text|
    decreases |text| - cursor
  {
    if cursor == |text| then None
    else match NextOpener(tags, text, cursor)
         case None => None
         case Some(open) =>
           match NextForm(text, open.start + OpenLen(open.tag), Form(open.tag, true))
           case None => Some(open)
           case Some(close) => Unclosed(tags, text, close + CloseLen(open.tag))
  }

  // ---- The loops ----

  method FindNextOpener(text: string, from: nat, tags: seq<string>) returns (r: Option<Opener>)
    requires from <= |text|
    ensures r == NextOpener(tags, text, from)
  {
    hide Form, Starts, Lower, MatchTag, NoOpener;
    var i := from;
    while i < |text|
      invariant from <= i <= |text|
      invariant NextOpener(tags, text, from) == NextOpener(tags, text, i)
    {
      if text[i] == '<' {
        var k := 0;
        assert tags[0..] == tags;
        while k < |tags|
          invariant 0 <= k <= |tags|
          invariant FirstOpener(tags, text[i..]) == FirstOpener(tags[k..], text[i..])
        {
          MatchTagIsForm(text, i, tags[k], false);
          var contentStart := MatchTag(text, i, tags[k], false);
          if contentStart.Some? {
            return Some(Opener(i, tags[k]));
          }
          assert tags[k..][1..] == tags[k + 1..];
          k := k + 1;
        }
      } else {
        OnlyAtBracket(tags, text, i);
      }
      i := i + 1;
    }
    return None;
  }

  method FindCloser(text: string, from: nat, tag: string) returns (r: Option<nat>)
    requires from <= |text|
    ensures r == NextForm(text, from, Form(tag, true))
  {
    var i := from;
    while i < |text|
      invariant from <= i <= |text|
      invariant NextForm(text, from, Form(tag, true)) == NextForm(text, i, Form(tag, true))
    {
      MatchTagIsForm(text, i, tag, true);
      if text[i] == '<' {
        var end := MatchTag(text, i, tag, true);
        if end.Some? {
          return Some(i);
        }
      }
      i := i + 1;
    }
    return None;
  }

  /** The inner loop of the source is the closer search on the tool-call tag. */
  method CollectToolCallSpans(slice: string, base: nat, inside: Option<string>) returns (out: seq<Span>)
    ensures out == Spans(slice, 0, base, inside)
  {
    hide Spans, Starts, Form, NextForm, MatchTag, NoForm, Lower;
    out := [];
    var i := 0;
    SpansDone(slice, base, inside);
    while i < |slice|
      invariant 0 <= i <= |slice|
      invariant out + Spans(slice, i, base, inside) == Spans(slice, 0, base, inside)
      decreases |slice| - i
    {
      MatchTagIsForm(slice, i, TOOL_CALL, false);
      var openEnd := MatchTag(slice, i, TOOL_CALL, false);
      if openEnd.None? {
        SpanSkip(slice, i, base, inside);
        i := i + 1;
      } else {
        var close := FindCloser(slice, openEnd.value, TOOL_CALL);
        SpanStep(out, slice, i, base, inside);
        if close.Some? {
          out := out + [Span(base + i, base + (close.value + CloseLen(TOOL_CALL)), slice[openEnd.value..close.value], inside)];
          i := close.value + CloseLen(TOOL_CALL);
        } else {
          i := openEnd.value;
        }
      }
    }
  }

  lemma SpansDone(slice: string, base: nat, inside: Option<string>)
    ensures Spans(slice, |slice|, base, inside) == []
  {
  }

  lemma SpanSkip(slice: string, i: nat, base: nat, inside: Option<string>)
    requires i < |slice| && !Starts(slice[i..], Form(TOOL_CALL, false))
    ensures Spans(slice, i, base, inside) == Spans(slice, i + 1, base, inside)
  {
  }

  lemma SpanStep(out: seq<Span>, slice: string, i: nat, base: nat, inside: Option<string>)
    requires i < |slice| && Starts(slice[i..], Form(TOOL_CALL, false))
    ensures var openEnd := i + OpenLen(TOOL_CALL);
            match NextForm(slice, openEnd, Form(TOOL_CALL, true))
            case None => Spans(slice, i, base, inside) == Spans(slice, openEnd, base, inside)
            case Some(j) =>
              var end := j + CloseLen(TOOL_CALL);
              out + Spans(slice, i, base, inside) ==
              (out + [Span(base + i, base + end, slice[openEnd..j], inside)]) + Spans(slice, end, base, inside)
  {
    hide Starts, Form, NextForm, NoForm, Lower;
  }

  /** `parseReasoningBlocks` on a prepared tag set. */
  method ParseReasoningBlocks(text: string, tags: seq<string>) returns (r: ParseResult)
    ensures r == Parse(tags, text, 0)
  {
    hide Join, Kept, Block, Parse, NextOpener, NextForm, Spans;
    r := EMPTY;
    var cursor := 0;
    JoinEmpty(Parse(tags, text, 0));
    while cursor < |text|
      invariant 0 <= cursor <= |text|
      invariant Join(r, Parse(tags, text, cursor)) == Parse(tags, text, 0)
      decreases |text| - cursor
    {
      ghost var done := r;
      var open := FindNextOpener(text, cursor, tags);
      if open.None? {
        LastPiece(tags, text, cursor);
        r := KeepText(r, text, cursor, |text|, None);
        return;
      }
      if open.value.start > cursor {
        r := KeepText(r, text, cursor, open.value.start, None);
      } else {
        KeptNothing(r, text, cursor);
      }
      var contentStart := open.value.start + OpenLen(open.value.tag);
      var close := FindCloser(text, contentStart, open.value.tag);
      if close.None? {
        UnclosedPiece(tags, text, cursor, done, open.value);
        r := KeepText(r, text, contentStart, |text|, Some(open.value.tag));
        return;
      }
      LoopStep(tags, text, cursor, done, open.value, close.value);
      r := AddBlock(r, text, open.value.tag, open.value.start, close.value);
      cursor := close.value + CloseLen(open.value.tag);
    }
    assert Parse(tags, text, cursor) == EMPTY by { ParseDone(tags, text); }
    JoinEmpty(r);
  }

  lemma ParseDone(tags: seq<string>, text: string)
    ensures Parse(tags, text, |text|) == EMPTY
  {
  }

  method AddBlock(r0: ParseResult, text: string, tag: string, start: nat, innerEnd: nat) returns (r: ParseResult)
    requires start + OpenLen(tag) <= innerEnd <= |text|
    ensures r == Join(r0, Block(text, tag, start, innerEnd))
  {
    var innerStart := start + OpenLen(tag);
    var inner := text[innerStart..innerEnd];
    var spans := CollectToolCallSpans(inner, innerStart, Some(tag));
    r := ParseResult(r0.stripped, r0.blocks + [ReasoningBlock(tag, inner, start, innerEnd + CloseLen(tag))],
                     r0.toolCallSpans + spans);
    assert r0.stripped + "" == r0.stripped;
  }

  method KeepText(r0: ParseResult, text: string, from: nat, to: nat, inside: Option<string>) returns (r: ParseResult)
    requires from <= to <= |text|
    ensures r == Join(r0, Kept(text, from, to, inside))
  {
    var slice := text[from..to];
    var spans := CollectToolCallSpans(slice, from, inside);
    r := ParseResult(r0.stripped + slice, r0.blocks, r0.toolCallSpans + spans);
    assert r0.blocks + [] == r0.blocks;
  }

  lemma KeptNothing(r: ParseResult, text: string, at: nat)
    requires at <= |text|
    ensures Join(r, Kept(text, at, at, None)) == r
  {
    assert r.stripped + "" == r.stripped && r.blocks + [] == r.blocks && r.toolCallSpans + [] == r.toolCallSpans;
  }

  lemma JoinAssoc(a: ParseResult, b: ParseResult, c: ParseResult)
    ensures Join(Join(a, b), c) == Join(a, Join(b, c))
  {
    assert (a.stripped + b.stripped) + c.stripped == a.stripped + (b.stripped + c.stripped);
    assert (a.blocks + b.blocks) + c.blocks == a.blocks + (b.blocks + c.blocks);
    assert (a.toolCallSpans + b.toolCallSpans) + c.toolCallSpans == a.toolCallSpans + (b.toolCallSpans + c.toolCallSpans);
  }

  lemma JoinEmpty(r: ParseResult)
    ensures Join(r, EMPTY) == r && Join(EMPTY, r) == r
  {
    assert r.stripped + "" == "" + r.stripped == r.stripped;
    assert r.blocks + [] == [] + r.blocks == r.blocks;
    assert r.toolCallSpans + [] == [] + r.toolCallSpans == r.toolCallSpans;
  }

  lemma LastPiece(tags: seq<string>, text: string, cursor: nat)
    requires cursor < |text| && NextOpener(tags, text, cursor).None?
    ensures Parse(tags, text, cursor) == Kept(text, cursor, |text|, None)
  {
  }

  lemma UnclosedPiece(tags: seq<string>, text: string, cursor: nat, r: ParseResult, open: Opener)
    requires cursor < |text| && NextOpener(tags, text, cursor) == Some(open)
    requires NextForm(text, open.start + OpenLen(open.tag), Form(open.tag, true)) == None
    ensures Join(r, Parse(tags, text, cursor)) ==
            Join(Join(r, Kept(text, cursor, open.start, None)),
                 Kept(text, open.start + OpenLen(open.tag), |text|, Some(open.tag)))
  {
    hide Join, Kept;
    JoinAssoc(r, Kept(text, cursor, open.start, None), Kept(text, open.start + OpenLen(open.tag), |text|, Some(open.tag)));
  }

  lemma ClosedPiece(tags: seq<string>, text: string, cursor: nat, open: Opener, close: nat)
    requires cursor < |text| && NextOpener(tags, text, cursor) == Some(open)
    requires NextForm(text, open.start + OpenLen(open.tag), Form(open.tag, true)) == Some(close)
    ensures Parse(tags, text, cursor) ==
            Join(Join(Kept(text, cursor, open.start, None), Block(text, open.tag, open.start, close)),
                 Parse(tags, text, close + CloseLen(open.tag)))
  {
    hide Join, Kept, Block, NoOpener, NoForm, Starts, FirstOpener, NextOpener, NextForm, Form, Lower;
  }

  lemma UnclosedStep(tags: seq<string>, text: string, cursor: nat, open: Opener, close: nat)
    requires cursor < |text| && NextOpener(tags, text, cursor) == Some(open)
    requires NextForm(text, open.start + OpenLen(open.tag), Form(open.tag, true)) == Some(close)
    ensures Unclosed(tags, text, cursor) == Unclosed(tags, text, close + CloseLen(open.tag))
  {
    hide NextOpener, NextForm, Starts, Form;
  }

  /** One iteration that closes a block moves its pieces from `Parse` into the accumulator. */
  lemma LoopStep(tags: seq<string>, text: string, cursor: nat, r: ParseResult, open: Opener, close: nat)
    requires cursor < |text| && NextOpener(tags, text, cursor) == Some(open)
    requires NextForm(text, open.start + OpenLen(open.tag), Form(open.tag, true)) == Some(close)
    ensures Join(r, Parse(tags, text, cursor)) ==
            Join(Join(Join(r, Kept(text, cursor, open.start, None)), Block(text, open.tag, open.start, close)),
                 Parse(tags, text, close + CloseLen(open.tag)))
  {
    hide Join, Kept, Block, Parse;
    ClosedPiece(tags, text, cursor, open, close);
    var head := Kept(text, cursor, open.start, None);
    var block := Block(text, open.tag, open.start, close);
    var rest := Parse(tags, text, close + CloseLen(open.tag));
    JoinAssoc(r, Join(head, block), rest);
    JoinAssoc(r, head, block);
  }

  /** A form begins with `<`, so no opener begins at any other character. */
  lemma OnlyAtBracket(tags: seq<string>, text: string, i: nat)
    requires i < |text| && text[i] != '<'
    ensures FirstOpener(tags, text[i..]).None?
  {
    match FirstOpener(tags, text[i..])
    case None =>
    case Some(tag) => FormImpliesMatch(text, i, tag, false);
  }
}
