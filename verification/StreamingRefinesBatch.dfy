/**
 The streaming parser against the one-shot parser: on a text without tool-call markers, however it
 is cut into chunks, the streamed text is the one-shot `stripped` and the streamed groups are the
 one-shot blocks exactly when every block that opens also closes.
 */
module StreamingRefinesBatch {
  import opened Options
  import opened ReasoningTags
  import opened ReasoningEvents
  import opened StreamingScan
  import opened BatchParser

  // ---- Stretches of plain characters ----

  function Texts(s: string): seq<Event> {
    if s == "" then [] else [Text(s[..1])] + Texts(s[1..])
  }

  function Deltas(s: string): seq<Event> {
    if s == "" then [] else [ReasoningDelta(s[..1])] + Deltas(s[1..])
  }

  /** Outside a block, a stretch without openers is emitted as text; a tool-call closer is plain text there. */
  lemma {:induction false} ScanText(tags: seq<string>, text: string, lo: nat, hi: nat)
    requires lo <= hi <= |text| && NoForm(text, Form(TOOL_CALL, false), lo, hi) && NoOpener(tags, text, lo, hi)
    ensures Scan(tags, INITIAL, text[lo..]) == Prefixed(Texts(text[lo..hi]), Scan(tags, INITIAL, text[hi..]))
    decreases hi - lo
  {
    if lo == hi {
      assert text[lo..hi] == "";
    } else {
      TextTurn(tags, text, lo);
      ScanText(tags, text, lo + 1, hi);
      assert text[lo..][1..] == text[lo + 1..];
      ScanUnfold(tags, INITIAL, text[lo..]);
      assert text[lo..hi][..1] == [text[lo]] && text[lo..hi][1..] == text[lo + 1..hi];
      PrefixedTwice([Text([text[lo]])], Texts(text[lo + 1..hi]), Scan(tags, INITIAL, text[hi..]));
    }
  }

  lemma TextTurn(tags: seq<string>, text: string, i: nat)
    requires i < |text| && !Starts(text[i..], Form(TOOL_CALL, false)) && FirstOpener(tags, text[i..]).None?
    ensures Take(tags, INITIAL, text[i..]) == Turn([Text([text[i]])], INITIAL, 1)
  {
  }

  /** Inside a block, a stretch without its closer is emitted as deltas. */
  lemma {:induction false} ScanInside(tags: seq<string>, tag: string, text: string, lo: nat, hi: nat)
    requires lo <= hi <= |text| && NoForm(text, Form(TOOL_CALL, false), lo, hi) && NoForm(text, Form(tag, true), lo, hi)
    ensures var st := State(Some(tag), None);
            Scan(tags, st, text[lo..]) == Prefixed(Deltas(text[lo..hi]), Scan(tags, st, text[hi..]))
    decreases hi - lo
  {
    var st := State(Some(tag), None);
    if lo == hi {
      assert text[lo..hi] == "";
    } else {
      DeltaTurn(tags, tag, text, lo);
      ScanInside(tags, tag, text, lo + 1, hi);
      assert text[lo..][1..] == text[lo + 1..];
      ScanUnfold(tags, st, text[lo..]);
      assert text[lo..hi][..1] == [text[lo]] && text[lo..hi][1..] == text[lo + 1..hi];
      PrefixedTwice([ReasoningDelta([text[lo]])], Deltas(text[lo + 1..hi]), Scan(tags, st, text[hi..]));
    }
  }

  lemma DeltaTurn(tags: seq<string>, tag: string, text: string, i: nat)
    requires i < |text| && !Starts(text[i..], Form(TOOL_CALL, false)) && !Starts(text[i..], Form(tag, true))
    ensures var st := State(Some(tag), None);
            Take(tags, st, text[i..]) == Turn([ReasoningDelta([text[i]])], st, 1)
  {
  }

  /** An opener found by the batch parser is the streaming parser's next turn, and so is a closer. */
  lemma OpenTurn(tags: seq<string>, text: string, i: nat, tag: string)
    requires i < |text| && FirstOpener(tags, text[i..]) == Some(tag) && tag != ""
    ensures Take(tags, INITIAL, text[i..]) == Turn([ReasoningStart(tag)], State(Some(tag), None), OpenLen(tag))
  {
    BeginsWithBracket(text[i..], tag, false);
  }

  lemma CloseTurn(tags: seq<string>, text: string, i: nat, tag: string)
    requires i < |text| && Starts(text[i..], Form(tag, true))
    ensures Take(tags, State(Some(tag), None), text[i..]) == Turn([ReasoningEnd(tag)], INITIAL, CloseLen(tag))
  {
    BeginsWithBracket(text[i..], tag, true);
  }

  lemma BeginsWithBracket(text: string, tag: string, close: bool)
    requires Starts(text, Form(tag, close))
    ensures text != "" && text[0] == '<'
    ensures (if close then CloseLen(tag) else OpenLen(tag)) <= |text|
  {
    assert Lower(text[..|Form(tag, close)|])[0] == '<';
  }

  lemma OpenStep(tags: seq<string>, text: string, i: nat, tag: string)
    requires i <= |text| && FirstOpener(tags, text[i..]) == Some(tag) && tag != ""
    ensures i + OpenLen(tag) <= |text|
    ensures Scan(tags, INITIAL, text[i..]) ==
            Prefixed([ReasoningStart(tag)], Scan(tags, State(Some(tag), None), text[i + OpenLen(tag)..]))
  {
    hide *;
    BeginsWithBracket(text[i..], tag, false);
    OpenTurn(tags, text, i, tag);
    ScanUnfold(tags, INITIAL, text[i..]);
    assert text[i..][OpenLen(tag)..] == text[i + OpenLen(tag)..];
  }

  lemma CloseStep(tags: seq<string>, text: string, i: nat, tag: string)
    requires i <= |text| && Starts(text[i..], Form(tag, true))
    ensures i + CloseLen(tag) <= |text|
    ensures Scan(tags, State(Some(tag), None), text[i..]) ==
            Prefixed([ReasoningEnd(tag)], Scan(tags, INITIAL, text[i + CloseLen(tag)..]))
  {
    hide *;
    BeginsWithBracket(text[i..], tag, true);
    CloseTurn(tags, text, i, tag);
    ScanUnfold(tags, State(Some(tag), None), text[i..]);
    assert text[i..][CloseLen(tag)..] == text[i + CloseLen(tag)..];
  }

  lemma ToolFreePart(text: string, lo: nat, hi: nat)
    requires lo <= hi <= |text| && ToolFree(text)
    ensures NoForm(text, Form(TOOL_CALL, false), lo, hi)
  {
    hide Form, Starts;
  }

  // ---- What the scan says, following the batch parser's own steps ----

  /** Before the last opener: everything is text. */
  lemma ScanNoOpener(tags: seq<string>, text: string, cursor: nat)
    requires cursor <= |text| && ToolFree(text) && NoOpener(tags, text, cursor, |text|)
    ensures Told(tags, INITIAL, text[cursor..]) == Texts(text[cursor..])
  {
    ToolFreePart(text, cursor, |text|);
    ScanText(tags, text, cursor, |text|);
    assert text[cursor..|text|] == text[cursor..] && text[|text|..] == "";
    assert Texts(text[cursor..]) + [] == Texts(text[cursor..]);
  }

  lemma ToldPrefixed(tags: seq<string>, st: State, text: string, head: seq<Event>, next: State, rest: string)
    requires Scan(tags, st, text) == Prefixed(head, Scan(tags, next, rest))
    ensures Told(tags, st, text) == head + Told(tags, next, rest)
  {
    hide Scan;
    var s := Scan(tags, next, rest);
    assert (head + s.events) + Closing(s.st) == head + (s.events + Closing(s.st));
  }

  /** Up to and including an opener. */
  lemma ScanToOpener(tags: seq<string>, text: string, cursor: nat, open: Opener)
    requires cursor <= |text| && ToolFree(text) && NextOpener(tags, text, cursor) == Some(open) && open.tag != ""
    ensures Told(tags, INITIAL, text[cursor..]) ==
            Texts(text[cursor..open.start]) + [ReasoningStart(open.tag)] +
            Told(tags, State(Some(open.tag), None), text[open.start + OpenLen(open.tag)..])
  {
    hide *;
    var st := State(Some(open.tag), None);
    var inner := open.start + OpenLen(open.tag);
    ToolFreePart(text, cursor, open.start);
    ScanText(tags, text, cursor, open.start);
    OpenStep(tags, text, open.start, open.tag);
    PrefixedTwice(Texts(text[cursor..open.start]), [ReasoningStart(open.tag)], Scan(tags, st, text[inner..]));
    ToldPrefixed(tags, INITIAL, text[cursor..], Texts(text[cursor..open.start]) + [ReasoningStart(open.tag)],
                 st, text[inner..]);
  }

  /** An unclosed block runs to the end and is closed by the flush. */
  lemma ScanUnclosed(tags: seq<string>, text: string, inner: nat, tag: string)
    requires inner <= |text| && ToolFree(text) && NoForm(text, Form(tag, true), inner, |text|)
    ensures Told(tags, State(Some(tag), None), text[inner..]) == Deltas(text[inner..]) + [ReasoningEnd(tag)]
  {
    ToolFreePart(text, inner, |text|);
    ScanInside(tags, tag, text, inner, |text|);
    assert text[inner..|text|] == text[inner..] && text[|text|..] == "";
    assert Deltas(text[inner..]) + [] == Deltas(text[inner..]);
  }

  /** Through a closed block. */
  lemma ScanClosed(tags: seq<string>, text: string, inner: nat, tag: string, close: nat)
    requires inner <= |text| && ToolFree(text) && NextForm(text, inner, Form(tag, true)) == Some(close)
    ensures Told(tags, State(Some(tag), None), text[inner..]) ==
            Deltas(text[inner..close]) + [ReasoningEnd(tag)] + Told(tags, INITIAL, text[close + CloseLen(tag)..])
  {
    hide *;
    var st := State(Some(tag), None);
    var next := close + CloseLen(tag);
    ToolFreePart(text, inner, close);
    ScanInside(tags, tag, text, inner, close);
    CloseStep(tags, text, close, tag);
    PrefixedTwice(Deltas(text[inner..close]), [ReasoningEnd(tag)], Scan(tags, INITIAL, text[next..]));
    ToldPrefixed(tags, st, text[inner..], Deltas(text[inner..close]) + [ReasoningEnd(tag)], INITIAL, text[next..]);
  }

  // ---- Collecting text and groups ----

  lemma {:induction false} CollectTexts(s: string)
    ensures TextOf(Texts(s)) == s && GroupsOf(Texts(s)) == [] && After(Outside, Texts(s)) == Outside
  {
    if s != "" {
      CollectTexts(s[1..]);
      TextOfConcat([Text(s[..1])], Texts(s[1..]));
      assert [Text(s[..1])][..0] == [];
      assert TextOf([Text(s[..1])]) == s[..1];
      AfterConcat(Outside, [Text(s[..1])], Texts(s[1..]));
      GroupsConcat([Text(s[..1])], Texts(s[1..]));
    }
  }

  /** A stream that is well formed from outside starts its own groups. */
  lemma {:induction false} GroupsConcat(a: seq<Event>, b: seq<Event>)
    requires After(Outside, b) != Broken
    ensures GroupsOf(a + b) == GroupsOf(a) + GroupsOf(b)
    ensures After(Outside, b).Inside? ==> GroupsOf(b) != []
    decreases |b|
  {
    if b == [] {
      assert a + b == a;
    } else {
      var front, e := b[..|b| - 1], b[|b| - 1];
      GroupsConcat(a, front);
      assert (a + b)[..|a + b| - 1] == a + front;
      if e.ReasoningDelta? { GrowRight(GroupsOf(a), GroupsOf(front), e.content); }
    }
  }

  lemma GrowRight(a: seq<Group>, b: seq<Group>, c: string)
    requires b != []
    ensures Grow(a + b, c) == a + Grow(b, c)
  {
  }

  lemma OneDelta(before: seq<Event>, c: string)
    ensures GroupsOf(before + [ReasoningDelta(c)]) == Grow(GroupsOf(before), c)
    ensures TextOf(before + [ReasoningDelta(c)]) == TextOf(before)
  {
    assert (before + [ReasoningDelta(c)])[..|before|] == before;
    assert TextOf(before) + "" == TextOf(before);
  }

  /** A start followed by deltas is one group with their joined content. */
  lemma {:induction false} CollectDeltas(before: seq<Event>, tag: string, had: string, s: string)
    requires GroupsOf(before) == [Group(tag, had)] && TextOf(before) == ""
    ensures GroupsOf(before + Deltas(s)) == [Group(tag, had + s)] && TextOf(before + Deltas(s)) == ""
    decreases |s|
  {
    hide TextOf, GroupsOf;
    if s == "" {
      assert before + Deltas(s) == before && had + s == had;
    } else {
      var d := ReasoningDelta(s[..1]);
      OneDelta(before, s[..1]);
      CollectDeltas(before + [d], tag, had + s[..1], s[1..]);
      assert before + Deltas(s) == (before + [d]) + Deltas(s[1..]);
      assert (had + s[..1]) + s[1..] == had + s;
    }
  }

  /** The events of one block: one group, no text. */
  lemma CollectBlock(tag: string, s: string)
    ensures var es := [ReasoningStart(tag)] + Deltas(s) + [ReasoningEnd(tag)];
            GroupsOf(es) == [Group(tag, s)] && TextOf(es) == "" && After(Outside, es) == Outside
  {
    var start := [ReasoningStart(tag)];
    assert start[..0] == [];
    assert GroupsOf(start) == [Group(tag, "")] && TextOf(start) == "";
    CollectDeltas(start, tag, "", s);
    assert "" + s == s;
    var es := start + Deltas(s) + [ReasoningEnd(tag)];
    assert es[..|es| - 1] == start + Deltas(s);
    AfterConcat(Outside, start, Deltas(s));
    AfterDeltas(tag, s);
  }

  lemma {:induction false} AfterDeltas(tag: string, s: string)
    ensures After(Inside(tag), Deltas(s)) == Inside(tag)
  {
    if s != "" {
      AfterDeltas(tag, s[1..]);
      AfterConcat(Inside(tag), [ReasoningDelta(s[..1])], Deltas(s[1..]));
      assert [ReasoningDelta(s[..1])][..0] == [];
    }
  }

  function BlockGroups(blocks: seq<ReasoningBlock>): seq<Group> {
    if blocks == [] then [] else [Group(blocks[0].tag, blocks[0].content)] + BlockGroups(blocks[1..])
  }

  /** What streaming says of a text whose rest from the cursor the batch parser reads as `r`. */
  predicate Agrees(es: seq<Event>, r: ParseResult) {
    TextOf(es) == r.stripped && GroupsOf(es) == BlockGroups(r.blocks)
  }

  lemma CollectPieces(plain: string, tag: string, content: string, rest: seq<Event>)
    requires After(Outside, rest) != Broken
    ensures var es := Texts(plain) + [ReasoningStart(tag)] + (Deltas(content) + [ReasoningEnd(tag)] + rest);
            TextOf(es) == plain + TextOf(rest) && GroupsOf(es) == [Group(tag, content)] + GroupsOf(rest)
  {
    hide Texts, Deltas, TextOf, GroupsOf, After;
    var block := [ReasoningStart(tag)] + Deltas(content) + [ReasoningEnd(tag)];
    var es := Texts(plain) + [ReasoningStart(tag)] + (Deltas(content) + [ReasoningEnd(tag)] + rest);
    assert es == Texts(plain) + (block + rest);
    CollectTexts(plain);
    CollectBlock(tag, content);
    AfterConcat(Outside, block, rest);
    TextOfConcat(block, rest);
    GroupsConcat(block, rest);
    TextOfConcat(Texts(plain), block + rest);
    GroupsConcat(Texts(plain), block + rest);
  }

  lemma ToldWellFormed(tags: seq<string>, text: string)
    requires "" !in tags
    ensures After(Outside, Told(tags, INITIAL, text)) == Outside
  {
    hide Scan, After, Closing, PositionOf;
    var s := Scan(tags, INITIAL, text);
    ScanShape(tags, INITIAL, text);
    ClosingShape(s.st);
    assert PositionOf(INITIAL) == Outside by { InitialPosition(); }
    AfterConcat(Outside, s.events, Closing(s.st));
  }

  lemma InitialPosition()
    ensures PositionOf(INITIAL) == Outside
  {
  }

  /** Streaming has one group more, with the content that the batch parser leaves in `stripped`. */
  predicate OneMore(es: seq<Event>, r: ParseResult, tag: string, content: string) {
    r.stripped == TextOf(es) + content && GroupsOf(es) == BlockGroups(r.blocks) + [Group(tag, content)]
  }

  /** Streaming and batch agree from the cursor on, or the unclosed block is the difference. */
  predicate Matches(tags: seq<string>, text: string, cursor: nat)
    requires cursor <= |text|
  {
    var es := Told(tags, INITIAL, text[cursor..]);
    var r := Parse(tags, text, cursor);
    match Unclosed(tags, text, cursor)
    case None => Agrees(es, r)
    case Some(open) => OneMore(es, r, open.tag, text[open.start + OpenLen(open.tag)..])
  }

  lemma {:induction false} MeaningIsBatch(tags: seq<string>, text: string, cursor: nat)
    requires cursor <= |text| && ToolFree(text) && "" !in tags
    ensures Matches(tags, text, cursor)
    decreases |text| - cursor
  {
    hide Matches, ToolFree, Form, Starts, NextForm, NextOpener;
    if cursor == |text| {
      NothingLeft(tags, text);
    } else {
      match NextOpener(tags, text, cursor)
      case None => MatchesPlain(tags, text, cursor);
      case Some(open) =>
        match NextForm(text, open.start + OpenLen(open.tag), Form(open.tag, true))
        case None => MatchesUnclosed(tags, text, cursor, open);
        case Some(close) =>
          MeaningIsBatch(tags, text, close + CloseLen(open.tag));
          MatchesClosed(tags, text, cursor, open, close);
    }
  }

  lemma MatchesPlain(tags: seq<string>, text: string, cursor: nat)
    requires cursor < |text| && ToolFree(text) && NextOpener(tags, text, cursor).None?
    ensures Matches(tags, text, cursor)
  {
    hide Told, Texts, Deltas, TextOf, GroupsOf, NextOpener, NextForm, Spans, ToolFree, Starts, Form;
    ScanNoOpener(tags, text, cursor);
    CollectTexts(text[cursor..]);
    assert text[cursor..] == text[cursor..|text|];
  }

  lemma MatchesUnclosed(tags: seq<string>, text: string, cursor: nat, open: Opener)
    requires cursor < |text| && ToolFree(text) && NextOpener(tags, text, cursor) == Some(open) && open.tag != ""
    requires NextForm(text, open.start + OpenLen(open.tag), Form(open.tag, true)) == None
    ensures Matches(tags, text, cursor)
  {
    hide Told, Texts, Deltas, TextOf, GroupsOf, NextOpener, NextForm, Spans, ToolFree, Starts, Form;
    var inner := open.start + OpenLen(open.tag);
    ScanToOpener(tags, text, cursor, open);
    ScanUnclosed(tags, text, inner, open.tag);
    UnclosedPieces(text[cursor..open.start], open.tag, text[inner..]);
    assert text[inner..|text|] == text[inner..];
    var r := Parse(tags, text, cursor);
    assert r.blocks == [] && r.stripped == text[cursor..open.start] + text[inner..];
  }

  lemma MatchesClosed(tags: seq<string>, text: string, cursor: nat, open: Opener, close: nat)
    requires cursor < |text| && ToolFree(text) && "" !in tags
    requires NextOpener(tags, text, cursor) == Some(open) && open.tag != ""
    requires NextForm(text, open.start + OpenLen(open.tag), Form(open.tag, true)) == Some(close)
    requires Matches(tags, text, close + CloseLen(open.tag))
    ensures Matches(tags, text, cursor)
  {
    hide Told, Texts, Deltas, TextOf, GroupsOf, NextOpener, NextForm, Parse, ToolFree, Starts, Form, After, Unclosed,
         OneMore, BlockGroups;
    var inner, next := open.start + OpenLen(open.tag), close + CloseLen(open.tag);
    ScanToOpener(tags, text, cursor, open);
    ScanClosed(tags, text, inner, open.tag, close);
    ToldWellFormed(tags, text[next..]);
    CollectPieces(text[cursor..open.start], open.tag, text[inner..close], Told(tags, INITIAL, text[next..]));
    BatchStep(tags, text, cursor, open, close);
    assert Unclosed(tags, text, cursor) == Unclosed(tags, text, next) by { UnclosedStep(tags, text, cursor, open, close); }
    if Unclosed(tags, text, next).Some? {
      var last := Unclosed(tags, text, next).value;
      var es, rest := Told(tags, INITIAL, text[cursor..]), Told(tags, INITIAL, text[next..]);
      OneMoreBehind(es, rest, Parse(tags, text, cursor), Parse(tags, text, next), text[cursor..open.start],
                    Group(open.tag, text[inner..close]), last.tag, text[last.start + OpenLen(last.tag)..]);
    }
  }

  lemma OneMoreBehind(es: seq<Event>, rest: seq<Event>, r: ParseResult, later: ParseResult,
                      plain: string, block: Group, tag: string, content: string)
    requires TextOf(es) == plain + TextOf(rest) && GroupsOf(es) == [block] + GroupsOf(rest)
    requires r.stripped == plain + later.stripped && BlockGroups(r.blocks) == [block] + BlockGroups(later.blocks)
    requires OneMore(rest, later, tag, content)
    ensures OneMore(es, r, tag, content)
  {
    assert (plain + TextOf(rest)) + content == plain + (TextOf(rest) + content);
  }

  lemma NothingLeft(tags: seq<string>, text: string)
    ensures Matches(tags, text, |text|)
  {
    assert text[|text|..] == "";
  }

  lemma UnclosedPieces(plain: string, tag: string, content: string)
    ensures var es := Texts(plain) + [ReasoningStart(tag)] + (Deltas(content) + [ReasoningEnd(tag)]);
            TextOf(es) == plain && GroupsOf(es) == [Group(tag, content)]
  {
    CollectPieces(plain, tag, content, []);
    assert Deltas(content) + [ReasoningEnd(tag)] + [] == Deltas(content) + [ReasoningEnd(tag)];
  }

  lemma BatchStep(tags: seq<string>, text: string, cursor: nat, open: Opener, close: nat)
    requires cursor < |text| && NextOpener(tags, text, cursor) == Some(open)
    requires NextForm(text, open.start + OpenLen(open.tag), Form(open.tag, true)) == Some(close)
    ensures var inner := open.start + OpenLen(open.tag);
            var r, rest := Parse(tags, text, cursor), Parse(tags, text, close + CloseLen(open.tag));
            && r.stripped == text[cursor..open.start] + rest.stripped
            && BlockGroups(r.blocks) == [Group(open.tag, text[inner..close])] + BlockGroups(rest.blocks)
  {
    hide Spans, NextOpener, NextForm, Starts, Form, Parse;
    ClosedPiece(tags, text, cursor, open, close);
    var r, rest := Parse(tags, text, cursor), Parse(tags, text, close + CloseLen(open.tag));
    assert (text[cursor..open.start] + "") + rest.stripped == text[cursor..open.start] + rest.stripped;
    var b := Block(text, open.tag, open.start, close).blocks[0];
    assert r.blocks == [b] + rest.blocks && r.blocks[1..] == rest.blocks;
  }

  /**
   For every tool-call-free text, every set of nonempty names none of which is shadowed and opened by it,
   and every cutting into chunks: the streamed text and groups are the one-shot result if and only if the
   one-shot parser meets no unclosed block; else that block is exactly the difference.
   */
  lemma StreamingIsBatch(tags: seq<string>, chunks: seq<string>)
    requires LowerCase(tags) && "" !in tags && Steady(tags, Concat(chunks)) && ToolFree(Concat(chunks))
    ensures Agrees(Run(tags, INITIAL, "", chunks), Parse(tags, Concat(chunks), 0)) <==>
            Unclosed(tags, Concat(chunks), 0).None?
    ensures match Unclosed(tags, Concat(chunks), 0)
            case None => true
            case Some(open) =>
              OneMore(Run(tags, INITIAL, "", chunks), Parse(tags, Concat(chunks), 0), open.tag,
                      Concat(chunks)[open.start + OpenLen(open.tag)..])
  {
    hide Run, Merge, Told, TextOf, GroupsOf, Parse, Unclosed, ToolFree, Steady;
    var text := Concat(chunks);
    var es := Run(tags, INITIAL, "", chunks);
    assert "" + text == text == text[0..];
    RunMeaning(tags, INITIAL, "", chunks);
    CollectMerged(es);
    CollectMerged(Told(tags, INITIAL, text));
    MeaningIsBatch(tags, text, 0);
  }
}
