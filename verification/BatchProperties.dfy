/**
 What the one-shot reasoning parser promises about its result: blocks are cut out of the text in
 order and without overlap, nothing else is removed, and every tool-call span points at a real
 `<tool_call>` pair of the input.
 */
module BatchProperties {
  import opened Options
  import opened ReasoningTags
  import opened BatchParser

  /** A block is an opener, its content without the closer, and the closer, at the stated range. */
  predicate BlockFits(tags: seq<string>, text: string, b: ReasoningBlock) {
    && b.tag in tags
    && b.start + OpenLen(b.tag) + |b.content| + CloseLen(b.tag) == b.end <= |text|
    && Starts(text[b.start..], Form(b.tag, false))
    && text[b.start + OpenLen(b.tag)..b.end - CloseLen(b.tag)] == b.content
    && Starts(text[b.end - CloseLen(b.tag)..], Form(b.tag, true))
    && NoForm(text, Form(b.tag, true), b.start + OpenLen(b.tag), b.end - CloseLen(b.tag))
  }

  /** Ascending, disjoint blocks from `from` on, with no opener in the gap before each. */
  predicate BlocksFit(tags: seq<string>, text: string, from: nat, blocks: seq<ReasoningBlock>)
    requires from <= |text|
    decreases |blocks|
  {
    blocks == [] ||
    (&& from <= blocks[0].start
     && BlockFits(tags, text, blocks[0])
     && NoOpener(tags, text, from, blocks[0].start)
     && BlocksFit(tags, text, blocks[0].end, blocks[1..]))
  }

  lemma {:induction false} ParseBlocksFit(tags: seq<string>, text: string, cursor: nat)
    requires cursor <= |text|
    ensures BlocksFit(tags, text, cursor, Parse(tags, text, cursor).blocks)
    decreases |text| - cursor
  {
    hide BlockFits, Block, NextForm, NoForm, NoOpener, FirstOpener, Starts, Form, Spans, Unclosed;
    if cursor < |text| {
      match NextOpener(tags, text, cursor)
      case None => LastPiece(tags, text, cursor);
      case Some(open) =>
        match NextForm(text, open.start + OpenLen(open.tag), Form(open.tag, true))
        case None =>
        case Some(close) =>
          var next := close + CloseLen(open.tag);
          ParseBlocksFit(tags, text, next);
          BlockPieceFits(tags, text, open, close);
          ClosedBlocks(tags, text, cursor, open, close);
    }
  }

  lemma ClosedBlocks(tags: seq<string>, text: string, cursor: nat, open: Opener, close: nat)
    requires cursor < |text| && NextOpener(tags, text, cursor) == Some(open)
    requires NextForm(text, open.start + OpenLen(open.tag), Form(open.tag, true)) == Some(close)
    ensures Parse(tags, text, cursor).blocks ==
            [Block(text, open.tag, open.start, close).blocks[0]] + Parse(tags, text, close + CloseLen(open.tag)).blocks
    ensures Block(text, open.tag, open.start, close).blocks[0].start == open.start
    ensures Block(text, open.tag, open.start, close).blocks[0].end == close + CloseLen(open.tag)
  {
    hide Parse, Spans, NextForm, NextOpener;
    ClosedPiece(tags, text, cursor, open, close);
  }

  lemma BlockPieceFits(tags: seq<string>, text: string, open: Opener, close: nat)
    requires open.start + OpenLen(open.tag) <= |text| && FirstOpener(tags, text[open.start..]) == Some(open.tag)
    requires NextForm(text, open.start + OpenLen(open.tag), Form(open.tag, true)) == Some(close)
    ensures BlockFits(tags, text, Block(text, open.tag, open.start, close).blocks[0])
  {
  }

  /** The parts of the input that the parser takes out: each block, and an opener left unclosed. */
  function Cuts(blocks: seq<ReasoningBlock>, open: Option<Opener>): seq<(nat, nat)> {
    if blocks == [] then
      if open.None? then [] else [(open.value.start, open.value.start + OpenLen(open.value.tag))]
    else [(blocks[0].start, blocks[0].end)] + Cuts(blocks[1..], open)
  }

  predicate CutsFit(text: string, from: nat, cuts: seq<(nat, nat)>)
    decreases |cuts|
  {
    from <= |text| &&
    (cuts == [] || (from <= cuts[0].0 < cuts[0].1 <= |text| && CutsFit(text, cuts[0].1, cuts[1..])))
  }

  /** The text from `from` on with the cuts taken out. */
  function Without(text: string, from: nat, cuts: seq<(nat, nat)>): string
    requires CutsFit(text, from, cuts)
    decreases |cuts|
  {
    if cuts == [] then text[from..]
    else text[from..cuts[0].0] + Without(text, cuts[0].1, cuts[1..])
  }

  /** From the cursor on, the stripped text is the text with exactly the cuts taken out. */
  predicate StrippedFits(tags: seq<string>, text: string, cursor: nat)
    requires cursor <= |text|
  {
    var r := Parse(tags, text, cursor);
    var cuts := Cuts(r.blocks, Unclosed(tags, text, cursor));
    CutsFit(text, cursor, cuts) && r.stripped == Without(text, cursor, cuts)
  }

  /** Blocks and stripped text cover the input: `stripped` is the input with exactly the cuts removed. */
  lemma {:induction false} StrippedIsTheRest(tags: seq<string>, text: string, cursor: nat)
    requires cursor <= |text|
    ensures StrippedFits(tags, text, cursor)
    decreases |text| - cursor
  {
    hide StrippedFits, Form, NextForm, NextOpener, NoForm, NoOpener, FirstOpener, Starts;
    if cursor == |text| || NextOpener(tags, text, cursor).None? {
      StrippedPlain(tags, text, cursor);
    } else {
      var open := NextOpener(tags, text, cursor).value;
      match NextForm(text, open.start + OpenLen(open.tag), Form(open.tag, true))
      case None => StrippedUnclosed(tags, text, cursor, open);
      case Some(close) =>
        StrippedIsTheRest(tags, text, close + CloseLen(open.tag));
        StrippedClosed(tags, text, cursor, open, close);
    }
  }

  lemma StrippedPlain(tags: seq<string>, text: string, cursor: nat)
    requires cursor <= |text|
    requires cursor == |text| || NextOpener(tags, text, cursor).None?
    ensures StrippedFits(tags, text, cursor)
  {
    assert text[cursor..] == text[cursor..|text|];
  }

  lemma StrippedClosed(tags: seq<string>, text: string, cursor: nat, open: Opener, close: nat)
    requires cursor < |text| && NextOpener(tags, text, cursor) == Some(open)
    requires NextForm(text, open.start + OpenLen(open.tag), Form(open.tag, true)) == Some(close)
    requires StrippedFits(tags, text, close + CloseLen(open.tag))
    ensures StrippedFits(tags, text, cursor)
  {
    hide Parse, Unclosed, NextOpener, NextForm, Starts, Form, Cuts, CutsFit, Without, Join, Kept, Block;
    var next := close + CloseLen(open.tag);
    ClosedPiece(tags, text, cursor, open, close);
    UnclosedStep(tags, text, cursor, open, close);
    StrippedStep(text, cursor, open, close, Parse(tags, text, next), Unclosed(tags, text, next));
  }

  lemma StrippedUnclosed(tags: seq<string>, text: string, cursor: nat, open: Opener)
    requires cursor < |text| && NextOpener(tags, text, cursor) == Some(open)
    requires NextForm(text, open.start + OpenLen(open.tag), Form(open.tag, true)) == None
    ensures StrippedFits(tags, text, cursor)
  {
    hide Spans, NextForm, NextOpener, Starts;
    var inner := open.start + OpenLen(open.tag);
    assert Parse(tags, text, cursor) == Join(Kept(text, cursor, open.start, None), Kept(text, inner, |text|, Some(open.tag)));
    assert Parse(tags, text, cursor).blocks == [] && Unclosed(tags, text, cursor) == Some(open);
    OneMoreCut(text, cursor, (open.start, inner), []);
    assert Cuts([], Some(open)) == [(open.start, inner)] + [];
    assert Without(text, inner, []) == text[inner..|text|];
  }

  lemma StrippedStep(text: string, cursor: nat, open: Opener, close: nat, rest: ParseResult, hole: Option<Opener>)
    requires cursor <= open.start && open.start + OpenLen(open.tag) <= close && close + CloseLen(open.tag) <= |text|
    requires CutsFit(text, close + CloseLen(open.tag), Cuts(rest.blocks, hole))
    requires rest.stripped == Without(text, close + CloseLen(open.tag), Cuts(rest.blocks, hole))
    ensures var r := Join(Join(Kept(text, cursor, open.start, None), Block(text, open.tag, open.start, close)), rest);
            var cuts := Cuts(r.blocks, hole);
            CutsFit(text, cursor, cuts) && r.stripped == Without(text, cursor, cuts)
  {
    hide Without, CutsFit, Spans, Form;
    var b := Block(text, open.tag, open.start, close).blocks[0];
    var r := Join(Join(Kept(text, cursor, open.start, None), Block(text, open.tag, open.start, close)), rest);
    assert r.blocks == [b] + rest.blocks && r.blocks[1..] == rest.blocks;
    assert Cuts(r.blocks, hole) == [(b.start, b.end)] + Cuts(rest.blocks, hole);
    assert r.stripped == text[cursor..open.start] + rest.stripped;
    OneMoreCut(text, cursor, (b.start, b.end), Cuts(rest.blocks, hole));
  }

  lemma OneMoreCut(text: string, from: nat, cut: (nat, nat), cuts: seq<(nat, nat)>)
    requires from <= cut.0 < cut.1 <= |text| && CutsFit(text, cut.1, cuts)
    ensures CutsFit(text, from, [cut] + cuts)
    ensures Without(text, from, [cut] + cuts) == text[from..cut.0] + Without(text, cut.1, cuts)
  {
    assert ([cut] + cuts)[1..] == cuts;
  }

  // ---- Tool-call spans ----

  /** A span is a `<tool_call>` pair of the text, with the payload between them, at absolute offsets. */
  predicate SpanFits(text: string, s: Span) {
    && s.start + OpenLen(TOOL_CALL) + |s.json| + CloseLen(TOOL_CALL) == s.end <= |text|
    && Starts(text[s.start..], Form(TOOL_CALL, false))
    && text[s.start + OpenLen(TOOL_CALL)..s.end - CloseLen(TOOL_CALL)] == s.json
    && Starts(text[s.end - CloseLen(TOOL_CALL)..], Form(TOOL_CALL, true))
    && NoForm(text, Form(TOOL_CALL, true), s.start, s.end - CloseLen(TOOL_CALL))
  }

  /** No `<tool_call>` of this part has a `</tool_call>` behind it in this part. */
  predicate NoPair(text: string, lo: nat, hi: nat)
    requires hi <= |text|
  {
    forall p, j :: lo <= p < j < hi && Starts(text[p..], Form(TOOL_CALL, false)) ==> !Starts(text[j..], Form(TOOL_CALL, true))
  }

  /**
   The spans are exactly the pairs of this part of the text: ascending, disjoint, each from the next `<tool_call>`
   to the first `</tool_call>` behind it, and none left out.
   */
  predicate SpansFit(text: string, lo: nat, hi: nat, inside: Option<string>, spans: seq<Span>)
    decreases |spans|
  {
    && lo <= hi <= |text|
    && (if spans == [] then NoPair(text, lo, hi)
        else
          var s := spans[0];
          && lo <= s.start && s.end <= hi && s.insideTag == inside && SpanFits(text, s)
          && NoForm(text, Form(TOOL_CALL, false), lo, s.start)
          && SpansFit(text, s.end, hi, inside, spans[1..]))
  }

  /** A part of the text that is searched for tool calls, and the block that it is the content of. */
  datatype Region = Region(lo: nat, hi: nat, inside: Option<string>)

  /** The parts between the openers and closers of the blocks: outside, inside, outside, and so on. */
  function Regions(text: string, from: nat, blocks: seq<ReasoningBlock>, open: Option<Opener>): seq<Region>
    decreases |blocks|
  {
    if blocks != [] then
      var b := blocks[0];
      var inner := b.start + OpenLen(b.tag);
      [Region(from, b.start, None), Region(inner, inner + |b.content|, Some(b.tag))] + Regions(text, b.end, blocks[1..], open)
    else if open.Some? then
      [Region(from, open.value.start, None), Region(open.value.start + OpenLen(open.value.tag), |text|, Some(open.value.tag))]
    else [Region(from, |text|, None)]
  }

  /** The spans are those of one part after the other. */
  ghost predicate RegionsFit(text: string, regions: seq<Region>, spans: seq<Span>)
    decreases |regions|
  {
    if regions == [] then spans == []
    else exists n: nat :: n <= |spans| && FirstRegionFits(text, regions[0], spans[..n]) &&
                          RegionsFit(text, regions[1..], spans[n..])
  }

  predicate FirstRegionFits(text: string, r: Region, spans: seq<Span>) {
    SpansFit(text, r.lo, r.hi, r.inside, spans)
  }

  lemma LowerBracket(c: char)
    ensures LowerChar(c) == '<' <==> c == '<'
    ensures LowerChar(c) == '/' <==> c == '/'
  {
  }

  /** A tool-call tag begins with `<` and holds no other one. */
  lemma TagInterior(text: string, k: nat, close: bool)
    requires k <= |text| && Starts(text[k..], Form(TOOL_CALL, close))
    ensures k + |Form(TOOL_CALL, close)| <= |text| && text[k] == '<'
    ensures forall q :: k < q < k + |Form(TOOL_CALL, close)| ==> text[q] != '<'
  {
    var form := Form(TOOL_CALL, close);
    forall q | k <= q < k + |form| ensures LowerChar(text[q]) == form[q - k] {
      assert Lower(text[k..][..|form|])[q - k] == LowerChar(text[k..][..|form|][q - k]);
    }
    LowerBracket(text[k]);
    forall q | k < q < k + |form| ensures text[q] != '<' {
      FormChars(TOOL_CALL, close, q - k);
      LowerBracket(text[q]);
      NoBracketInName(TOOL_CALL, q - k - (if close then 2 else 1));
    }
  }

  lemma NoBracketInName(name: string, k: int)
    requires name == TOOL_CALL
    ensures 0 <= k < |name| ==> name[k] != '<'
  {
  }

  /** No tag begins behind the first character of a tool-call tag. */
  lemma NoTagWithin(text: string, k: nat, close: bool, other: bool)
    requires k <= |text| && Starts(text[k..], Form(TOOL_CALL, close))
    ensures k + |Form(TOOL_CALL, close)| <= |text|
    ensures NoForm(text, Form(TOOL_CALL, other), k + 1, k + |Form(TOOL_CALL, close)|)
  {
    hide Starts, Form;
    TagInterior(text, k, close);
    forall q | k < q < k + |Form(TOOL_CALL, close)| ensures !Starts(text[q..], Form(TOOL_CALL, other)) {
      if Starts(text[q..], Form(TOOL_CALL, other)) { TagInterior(text, q, other); }
    }
  }

  /** Does a tag that begins before this place end before it? */
  predicate Boundary(text: string, hi: nat) { hi <= |text| && (hi < |text| ==> text[hi] == '<') }

  lemma SliceStarts(text: string, lo: nat, hi: nat, i: nat, close: bool)
    requires lo + i <= hi && Boundary(text, hi)
    ensures Starts(text[lo..hi][i..], Form(TOOL_CALL, close)) <==> lo + i < hi && Starts(text[lo + i..], Form(TOOL_CALL, close))
  {
    var form := Form(TOOL_CALL, close);
    if lo + i < hi && Starts(text[lo + i..], form) { TagInterior(text, lo + i, close); }
    if lo + i + |form| <= hi { assert text[lo..hi][i..][..|form|] == text[lo + i..][..|form|]; }
  }

  lemma SliceOfSlice(text: string, lo: nat, hi: nat, a: nat, b: nat)
    requires lo <= hi <= |text| && a <= b <= hi - lo
    ensures text[lo..hi][a..b] == text[lo + a..lo + b]
  {
    forall k | 0 <= k < b - a ensures text[lo..hi][a..b][k] == text[lo + a..lo + b][k] {
      assert text[lo..hi][a..b][k] == text[lo..hi][a + k] == text[lo + (a + k)];
    }
  }

  lemma SliceNoForm(text: string, lo: nat, hi: nat, a: nat, b: nat, close: bool)
    requires lo <= hi && a <= b <= hi - lo && Boundary(text, hi)
    requires NoForm(text[lo..hi], Form(TOOL_CALL, close), a, b)
    ensures NoForm(text, Form(TOOL_CALL, close), lo + a, lo + b)
  {
    hide Starts, Form;
    forall k | lo + a <= k < lo + b ensures !Starts(text[k..], Form(TOOL_CALL, close)) {
      SliceStarts(text, lo, hi, k - lo, close);
      assert !Starts(text[lo..hi][k - lo..], Form(TOOL_CALL, close));
    }
  }

  /** The first closer behind an opener makes it a span. */
  lemma SpanPieceFits(text: string, lo: nat, hi: nat, i: nat, j: nat, inside: Option<string>)
    requires lo <= hi && i + OpenLen(TOOL_CALL) <= j && j + CloseLen(TOOL_CALL) <= hi - lo && Boundary(text, hi)
    requires Starts(text[lo..hi][i..], Form(TOOL_CALL, false)) && Starts(text[lo..hi][j..], Form(TOOL_CALL, true))
    requires NoForm(text[lo..hi], Form(TOOL_CALL, true), i + OpenLen(TOOL_CALL), j)
    ensures SpanFits(text, Span(lo + i, lo + (j + CloseLen(TOOL_CALL)), text[lo..hi][i + OpenLen(TOOL_CALL)..j], inside))
  {
    hide Starts;
    SliceStarts(text, lo, hi, i, false);
    SliceStarts(text, lo, hi, j, true);
    SliceOfSlice(text, lo, hi, i + OpenLen(TOOL_CALL), j);
    SliceNoForm(text, lo, hi, i + OpenLen(TOOL_CALL), j, true);
    OpenerNoCloser(text, lo + i);
  }

  lemma OpenerNoCloser(text: string, k: nat)
    requires k <= |text| && Starts(text[k..], Form(TOOL_CALL, false))
    ensures k + OpenLen(TOOL_CALL) <= |text| && NoForm(text, Form(TOOL_CALL, true), k, k + OpenLen(TOOL_CALL))
  {
    hide Starts, Form;
    NoTagWithin(text, k, false, true);
    ToolOpenerIsNoCloser(text[k..], TOOL_CALL);
  }

  lemma OpenerFits(text: string)
    requires Starts(text, Form(TOOL_CALL, false))
    ensures OpenLen(TOOL_CALL) <= |text|
  {
  }

  /** A place without opener in front of a part changes nothing. */
  lemma FitEarlier(text: string, lo: nat, hi: nat, inside: Option<string>, spans: seq<Span>)
    requires lo < hi && SpansFit(text, lo + 1, hi, inside, spans) && !Starts(text[lo..], Form(TOOL_CALL, false))
    ensures SpansFit(text, lo, hi, inside, spans)
  {
    hide Starts, Form, SpanFits;
  }

  /** An opener without closer behind it leaves nothing to report. */
  lemma FitUnclosed(text: string, lo: nat, hi: nat, inside: Option<string>, spans: seq<Span>)
    requires lo + OpenLen(TOOL_CALL) <= hi <= |text| && Starts(text[lo..], Form(TOOL_CALL, false))
    requires SpansFit(text, lo + OpenLen(TOOL_CALL), hi, inside, spans)
    requires NoForm(text, Form(TOOL_CALL, true), lo + OpenLen(TOOL_CALL), hi)
    ensures SpansFit(text, lo, hi, inside, spans)
  {
    hide Starts;
    OpenerNoCloser(text, lo);
  }

  lemma FitStep(text: string, lo: nat, hi: nat, inside: Option<string>, s: Span, rest: seq<Span>)
    requires s.start == lo && s.end <= hi && s.insideTag == inside && SpanFits(text, s)
    requires SpansFit(text, s.end, hi, inside, rest)
    ensures SpansFit(text, lo, hi, inside, [s] + rest)
  {
    hide Starts, Form, SpanFits;
    assert ([s] + rest)[1..] == rest;
    assert s.start <= s.end by { SpanOrder(text, s); }
  }

  lemma SpanOrder(text: string, s: Span)
    requires SpanFits(text, s)
    ensures s.start < s.end
  {
  }

  lemma {:induction false} SlicedSpansFit(text: string, lo: nat, hi: nat, i: nat, inside: Option<string>)
    requires lo + i <= hi && Boundary(text, hi)
    ensures SpansFit(text, lo + i, hi, inside, Spans(text[lo..hi], i, lo, inside))
    decreases hi - (lo + i)
  {
    hide SpanFits, SpansFit, Form, Starts, NextForm, NoForm;
    var slice := text[lo..hi];
    if i == |slice| {
      EmptyFits(text, lo + i, hi, inside);
    } else {
      SliceStarts(text, lo, hi, i, false);
      if !Starts(slice[i..], Form(TOOL_CALL, false)) {
        SlicedSpansFit(text, lo, hi, i + 1, inside);
        FitEarlier(text, lo + i, hi, inside, Spans(slice, i, lo, inside));
      } else {
        var openEnd := i + OpenLen(TOOL_CALL);
        OpenerFits(slice[i..]);
        match NextForm(slice, openEnd, Form(TOOL_CALL, true))
        case None =>
          SlicedSpansFit(text, lo, hi, openEnd, inside);
          SliceNoForm(text, lo, hi, openEnd, hi - lo, true);
          FitUnclosed(text, lo + i, hi, inside, Spans(slice, openEnd, lo, inside));
        case Some(j) =>
          var end := j + CloseLen(TOOL_CALL);
          SlicedSpansFit(text, lo, hi, end, inside);
          SpanPieceFits(text, lo, hi, i, j, inside);
          SpanStep([], slice, i, lo, inside);
          FitStep(text, lo + i, hi, inside, Span(lo + i, lo + end, slice[openEnd..j], inside), Spans(slice, end, lo, inside));
      }
    }
  }

  lemma EmptyFits(text: string, lo: nat, hi: nat, inside: Option<string>)
    requires hi <= |text| && lo == hi
    ensures SpansFit(text, lo, hi, inside, [])
  {
  }

  lemma {:induction false} FitsAreSpans(text: string, lo: nat, hi: nat, inside: Option<string>, spans: seq<Span>)
    requires SpansFit(text, lo, hi, inside, spans)
    ensures forall s :: s in spans ==> SpanFits(text, s) && s.insideTag == inside
    decreases |spans|
  {
    hide SpanFits, NoForm, NoPair;
    if spans != [] {
      FitsAreSpans(text, spans[0].end, hi, inside, spans[1..]);
      assert spans == [spans[0]] + spans[1..];
    }
  }

  lemma {:induction false} RegionSpansReal(text: string, regions: seq<Region>, spans: seq<Span>)
    requires RegionsFit(text, regions, spans)
    ensures forall s :: s in spans ==> SpanFits(text, s)
    decreases |regions|
  {
    hide SpanFits, SpansFit;
    if regions != [] {
      var n: nat :| n <= |spans| && FirstRegionFits(text, regions[0], spans[..n]) && RegionsFit(text, regions[1..], spans[n..]);
      FitsAreSpans(text, regions[0].lo, regions[0].hi, regions[0].inside, spans[..n]);
      RegionSpansReal(text, regions[1..], spans[n..]);
      assert spans == spans[..n] + spans[n..];
    }
  }

  lemma MoreRegions(text: string, r: Region, spans: seq<Span>, regions: seq<Region>, later: seq<Span>)
    requires FirstRegionFits(text, r, spans) && RegionsFit(text, regions, later)
    ensures RegionsFit(text, [r] + regions, spans + later)
  {
    hide FirstRegionFits;
    var all := spans + later;
    assert all[..|spans|] == spans && all[|spans|..] == later && ([r] + regions)[1..] == regions;
  }

  /** The part of the text up to `at`, with its spans. */
  lemma RegionSpans(text: string, lo: nat, hi: nat, inside: Option<string>)
    requires lo <= hi && Boundary(text, hi)
    ensures FirstRegionFits(text, Region(lo, hi, inside), Spans(text[lo..hi], 0, lo, inside))
  {
    hide SpansFit;
    SlicedSpansFit(text, lo, hi, 0, inside);
  }

  lemma AnyFormIsBoundary(text: string, hi: nat, tag: string, close: bool)
    requires hi <= |text| && Starts(text[hi..], Form(tag, close))
    ensures Boundary(text, hi)
  {
    var form := Form(tag, close);
    assert Lower(text[hi..][..|form|])[0] == LowerChar(text[hi]) && form[0] == '<';
    LowerBracket(text[hi]);
  }

  lemma NoRegions(text: string)
    ensures RegionsFit(text, [], [])
  {
  }

  /**
   The reported spans are, part by part, exactly the tool-call pairs between the openers and closers of the
   blocks, those of a block's content under its tag.
   */
  lemma {:induction false} ParseSpansFit(tags: seq<string>, text: string, cursor: nat)
    requires cursor <= |text|
    ensures var r := Parse(tags, text, cursor);
            && RegionsFit(text, Regions(text, cursor, r.blocks, Unclosed(tags, text, cursor)), r.toolCallSpans)
            && forall s :: s in r.toolCallSpans ==> SpanFits(text, s)
    decreases |text| - cursor
  {
    hide SpanFits, Parse, Unclosed, Regions, RegionsFit, NextForm, NextOpener, NoForm, NoOpener, FirstOpener, Starts, Form;
    if cursor == |text| || NextOpener(tags, text, cursor).None? {
      RegionsPlain(tags, text, cursor);
    } else {
      var open := NextOpener(tags, text, cursor).value;
      match NextForm(text, open.start + OpenLen(open.tag), Form(open.tag, true))
      case None => RegionsUnclosed(tags, text, cursor, open);
      case Some(close) =>
        ParseSpansFit(tags, text, close + CloseLen(open.tag));
        RegionsClosed(tags, text, cursor, open, close);
    }
    var r := Parse(tags, text, cursor);
    RegionSpansReal(text, Regions(text, cursor, r.blocks, Unclosed(tags, text, cursor)), r.toolCallSpans);
  }

  lemma RegionsPlain(tags: seq<string>, text: string, cursor: nat)
    requires cursor <= |text|
    requires cursor == |text| || NextOpener(tags, text, cursor).None?
    ensures var r := Parse(tags, text, cursor);
            && r.blocks == [] && r.toolCallSpans == Spans(text[cursor..|text|], 0, cursor, None)
            && Unclosed(tags, text, cursor).None?
            && Regions(text, cursor, r.blocks, None) == [Region(cursor, |text|, None)]
            && RegionsFit(text, [Region(cursor, |text|, None)], r.toolCallSpans)
  {
    hide NextOpener, RegionsFit, FirstRegionFits, Form, Starts, NextForm;
    RegionSpans(text, cursor, |text|, None);
    NoRegions(text);
    var spans := Spans(text[cursor..|text|], 0, cursor, None);
    MoreRegions(text, Region(cursor, |text|, None), spans, [], []);
    assert spans + [] == spans && [Region(cursor, |text|, None)] + [] == [Region(cursor, |text|, None)];
  }

  /** What the parse step at an opener adds: the part before it, and its block or what is left of the text. */
  lemma RegionsUnclosed(tags: seq<string>, text: string, cursor: nat, open: Opener)
    requires cursor < |text| && NextOpener(tags, text, cursor) == Some(open)
    requires NextForm(text, open.start + OpenLen(open.tag), Form(open.tag, true)) == None
    ensures var r := Parse(tags, text, cursor);
            var inner := open.start + OpenLen(open.tag);
            && r.toolCallSpans == Spans(text[cursor..open.start], 0, cursor, None) +
                                  Spans(text[inner..|text|], 0, inner, Some(open.tag))
            && Regions(text, cursor, r.blocks, Unclosed(tags, text, cursor)) ==
               [Region(cursor, open.start, None), Region(inner, |text|, Some(open.tag))]
            && RegionsFit(text, Regions(text, cursor, r.blocks, Unclosed(tags, text, cursor)), r.toolCallSpans)
  {
    hide Spans, NextForm, NextOpener, Starts, RegionsFit, FirstRegionFits, Form;
    var inner := open.start + OpenLen(open.tag);
    var head, tail := Spans(text[cursor..open.start], 0, cursor, None), Spans(text[inner..|text|], 0, inner, Some(open.tag));
    var first, last := Region(cursor, open.start, None), Region(inner, |text|, Some(open.tag));
    assert Parse(tags, text, cursor) == Join(Kept(text, cursor, open.start, None), Kept(text, inner, |text|, Some(open.tag)));
    assert Unclosed(tags, text, cursor) == Some(open);
    AnyFormIsBoundary(text, open.start, open.tag, false);
    RegionSpans(text, cursor, open.start, None);
    RegionSpans(text, inner, |text|, Some(open.tag));
    NoRegions(text);
    MoreRegions(text, last, tail, [], []);
    MoreRegions(text, first, head, [last] + [], tail + []);
    assert tail + [] == tail && [first] + ([last] + []) == [first, last];
  }

  lemma RegionsClosed(tags: seq<string>, text: string, cursor: nat, open: Opener, close: nat)
    requires cursor < |text| && NextOpener(tags, text, cursor) == Some(open)
    requires NextForm(text, open.start + OpenLen(open.tag), Form(open.tag, true)) == Some(close)
    requires var next := close + CloseLen(open.tag);
             var later := Parse(tags, text, next);
             RegionsFit(text, Regions(text, next, later.blocks, Unclosed(tags, text, next)), later.toolCallSpans)
    ensures var r := Parse(tags, text, cursor);
            var inner, next := open.start + OpenLen(open.tag), close + CloseLen(open.tag);
            var later := Parse(tags, text, next);
            && r.toolCallSpans == Spans(text[cursor..open.start], 0, cursor, None) +
                                  (Spans(text[inner..close], 0, inner, Some(open.tag)) + later.toolCallSpans)
            && Regions(text, cursor, r.blocks, Unclosed(tags, text, cursor)) ==
               [Region(cursor, open.start, None)] + ([Region(inner, close, Some(open.tag))] +
                Regions(text, next, later.blocks, Unclosed(tags, text, next)))
            && RegionsFit(text, Regions(text, cursor, r.blocks, Unclosed(tags, text, cursor)), r.toolCallSpans)
  {
    hide Spans, NextForm, NextOpener, Starts, RegionsFit, FirstRegionFits, Form, Parse, Unclosed;
    var inner, next := open.start + OpenLen(open.tag), close + CloseLen(open.tag);
    var later, open2 := Parse(tags, text, next), Unclosed(tags, text, next);
    var head, body := Spans(text[cursor..open.start], 0, cursor, None), Spans(text[inner..close], 0, inner, Some(open.tag));
    var first, second := Region(cursor, open.start, None), Region(inner, close, Some(open.tag));
    ClosedPiece(tags, text, cursor, open, close);
    ClosedBlocks(tags, text, cursor, open, close);
    UnclosedStep(tags, text, cursor, open, close);
    AnyFormIsBoundary(text, open.start, open.tag, false);
    AnyFormIsBoundary(text, close, open.tag, true);
    RegionSpans(text, cursor, open.start, None);
    RegionSpans(text, inner, close, Some(open.tag));
    MoreRegions(text, second, body, Regions(text, next, later.blocks, open2), later.toolCallSpans);
    MoreRegions(text, first, head, [second] + Regions(text, next, later.blocks, open2), body + later.toolCallSpans);
    assert (head + body) + later.toolCallSpans == head + (body + later.toolCallSpans);
    var b := Block(text, open.tag, open.start, close).blocks[0];
    assert ([b] + later.blocks)[1..] == later.blocks;
  }
}
