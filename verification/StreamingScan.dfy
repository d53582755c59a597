/**
 What the streaming reasoning parser computes (packages/core/src/reasoning-blocks.ts:228-440): pumping
 chunk by chunk and then flushing says what one scan of the whole text says, wherever it was cut.
 */
module StreamingScan {
  import opened Options
  import opened ReasoningTags
  import opened ReasoningEvents

  function Concat(chunks: seq<string>): string {
    if chunks == [] then "" else chunks[0] + Concat(chunks[1..])
  }

  /** The parser's fields beside its buffer; a current tag with an empty name counts as none, as in JavaScript. */
  datatype State = State(currentTag: Option<string>, toolCallBuf: Option<string>)

  const INITIAL := State(None, None)

  /** The state behind an opener. */
  function Opened(tag: string): State {
    State(if tag == "" then None else Some(tag), None)
  }

  /** One turn of the drain loop: what it emits, where it leaves the fields, how much it consumes. */
  datatype Turn = Turn(events: seq<Event>, next: State, width: nat)

  /** `emitChar`: a character goes to the tool-call payload, to the open block, or to the text. */
  function Emit(st: State, c: char): Turn {
    if st.toolCallBuf.Some? then Turn([], st.(toolCallBuf := Some(st.toolCallBuf.value + [c])), 1)
    else if st.currentTag.Some? then Turn([ReasoningDelta([c])], st, 1)
    else Turn([Text([c])], st, 1)
  }

  /** The structural matches at a `<`, in the order in which `drain` tries them. */
  function Structural(tags: seq<string>, st: State, text: string): Option<Turn> {
    if st.currentTag.Some? then
      var tag := st.currentTag.value;
      if Starts(text, Form(tag, true)) then
        Some(Turn([ReasoningEnd(tag)], INITIAL, |Form(tag, true)|))
      else if Starts(text, Form(TOOL_CALL, false)) then
        Some(Turn([], st.(toolCallBuf := Some("")), |Form(TOOL_CALL, false)|))
      else if Starts(text, Form(TOOL_CALL, true)) && st.toolCallBuf.Some? then
        Some(Turn([ToolCallSpan(st.toolCallBuf.value, Some(tag))], st.(toolCallBuf := None), |Form(TOOL_CALL, true)|))
      else None
    else if st.toolCallBuf.None? && FirstOpener(tags, text).Some? then
      var tag := FirstOpener(tags, text).value;
      Some(Turn([ReasoningStart(tag)], Opened(tag), |Form(tag, false)|))
    else if Starts(text, Form(TOOL_CALL, false)) && st.toolCallBuf.None? then
      Some(Turn([], st.(toolCallBuf := Some("")), |Form(TOOL_CALL, false)|))
    else if Starts(text, Form(TOOL_CALL, true)) && st.toolCallBuf.Some? then
      Some(Turn([ToolCallSpan(st.toolCallBuf.value, None)], st.(toolCallBuf := None), |Form(TOOL_CALL, true)|))
    else None
  }

  function Take(tags: seq<string>, st: State, text: string): (t: Turn)
    requires text != ""
    ensures 1 <= t.width <= |text|
  {
    if text[0] == '<' && Structural(tags, st, text).Some?
    then Structural(tags, st, text).value
    else Emit(st, text[0])
  }

  /** Does `drain` stop in front of this text and wait for more? */
  predicate Waits(tags: seq<string>, st: State, text: string)
    requires text != ""
  {
    text[0] == '<' && Structural(tags, st, text).None? && CouldBePartial(tags, text)
  }

  datatype Scanned = Scanned(events: seq<Event>, st: State)

  /** The loop of `drain(true)`: the whole text, one turn after another, never waiting. */
  function Scan(tags: seq<string>, st: State, text: string): Scanned
    decreases |text|
  {
    if text == "" then Scanned([], st)
    else
      var t := Take(tags, st, text);
      var rest := Scan(tags, t.next, text[t.width..]);
      Scanned(t.events + rest.events, rest.st)
  }

  datatype Pumped = Pumped(events: seq<Event>, st: State, rest: string)

  /** The loop of `drain(false)`: stops at the first position that waits. */
  function Pump(tags: seq<string>, st: State, buffer: string): Pumped
    decreases |buffer|
  {
    if buffer == "" || Waits(tags, st, buffer) then Pumped([], st, buffer)
    else
      var t := Take(tags, st, buffer);
      var p := Pump(tags, t.next, buffer[t.width..]);
      Pumped(t.events + p.events, p.st, p.rest)
  }

  /** What `flush` adds after the last character: an open block is closed. */
  function Closing(st: State): seq<Event> {
    if st.currentTag.Some? then [ReasoningEnd(st.currentTag.value)] else []
  }

  /** Everything said from a state on when the given text is all that remains. */
  function Told(tags: seq<string>, st: State, text: string): seq<Event> {
    var s := Scan(tags, st, text);
    s.events + Closing(s.st)
  }

  /** All fine-grained events of a whole text: the meaning every chunking must have. */
  function Meaning(tags: seq<string>, text: string): seq<Event> {
    Told(tags, INITIAL, text)
  }

  /** The open block was opened by the name that opens its form. */
  predicate ValidState(tags: seq<string>, st: State) {
    st.currentTag.Some? ==>
      var tag := st.currentTag.value;
      tag in tags && tag != "" && FirstOpener(tags, Form(tag, false)) == Some(tag)
  }

  // ---- Look-ahead: waiting happens exactly when more input could still matter ----

  /** No `<tool_call>` and no `</tool_call>` anywhere, in any case. */
  predicate ToolFree(text: string) {
    forall k :: 0 <= k < |text| ==> !Starts(text[k..], Form(TOOL_CALL, false)) && !Starts(text[k..], Form(TOOL_CALL, true))
  }

  predicate Occurs(text: string, form: string) {
    exists k :: 0 <= k <= |text| && Starts(text[k..], form)
  }

  /** The text opens no shadowed name, nor closes one that the tool-call name shadows. */
  predicate Steady(tags: seq<string>, text: string) {
    var names := Names(tags);
    forall i: nat, j: nat | i < j < |names| && Shadows(names, i, j) ::
      !Occurs(text, Form(names[i], false)) && (names[j] == TOOL_CALL ==> !Occurs(text, Form(names[i], true)))
  }

  /** Unshadowed names are steady in every text. */
  lemma UnshadowedSteady(tags: seq<string>, text: string)
    requires !Shadowed(tags)
    ensures Steady(tags, text)
  {
    hide Shadows, Names, Form, Occurs;
  }

  lemma SteadyTail(tags: seq<string>, text: string, from: nat)
    requires from <= |text| && Steady(tags, text)
    ensures Steady(tags, text[from..])
  {
    hide Shadows, Names, Form, Starts;
    forall form | Occurs(text[from..], form) ensures Occurs(text, form) {
      var k :| 0 <= k <= |text[from..]| && Starts(text[from..][k..], form);
      assert text[from..][k..] == text[from + k..];
    }
  }

  /** What begins a text occurs in it. */
  lemma OccursFirst(text: string, form: string)
    requires Starts(text, form)
    ensures Occurs(text, form)
  {
    assert text[0..] == text;
  }

  /** A structural match stays the chosen one when input is appended. */
  lemma StructuralExtends(tags: seq<string>, st: State, text: string, more: string)
    requires LowerCase(tags) && Steady(tags, text + more) && ValidState(tags, st)
    requires Structural(tags, st, text).Some?
    ensures Structural(tags, st, text + more) == Structural(tags, st, text)
  {
    if st.currentTag.Some? {
      InsideExtends(tags, st, text, more);
    } else {
      OutsideExtends(tags, st, text, more);
    }
  }

  lemma InsideExtends(tags: seq<string>, st: State, text: string, more: string)
    requires LowerCase(tags) && Steady(tags, text + more) && ValidState(tags, st)
    requires st.currentTag.Some? && Structural(tags, st, text).Some?
    ensures Structural(tags, st, text + more) == Structural(tags, st, text)
  {
    hide Steady, Form, Lower;
    var tag := st.currentTag.value;
    if Starts(text, Form(tag, true)) {
      StartsExtends(text, more, Form(tag, true));
    } else if Starts(text, Form(TOOL_CALL, false)) {
      StartsExtends(text, more, Form(TOOL_CALL, false));
      ToolOpenerIsNoCloser(text + more, tag);
    } else {
      StartsExtends(text, more, Form(TOOL_CALL, true));
      if Starts(text + more, Form(TOOL_CALL, false)) { ToolOpenerIsNoCloser(text + more, TOOL_CALL); }
      if Starts(text + more, Form(tag, true)) { CloserLater(tags, tag, text, more); }
    }
  }

  /** No closer appears where the tool-call closer matched before it, unless the text closes a shadowed name. */
  lemma CloserLater(tags: seq<string>, tag: string, text: string, more: string)
    requires LowerCase(tags) && tag in tags && FirstOpener(tags, Form(tag, false)) == Some(tag)
    requires Starts(text, Form(TOOL_CALL, true)) && !Starts(text, Form(tag, true)) && Starts(text + more, Form(tag, true))
    ensures !Steady(tags, text + more)
  {
    hide Shadows, Names, Starts, Lower, Form, FirstOpener;
    if |tag| <= |TOOL_CALL| { ShorterStarts(text, more, tag, TOOL_CALL, true); }
    StartsExtends(text, more, Form(TOOL_CALL, true));
    BothStart(text + more, TOOL_CALL, tag, true);
    var i, j := ToolCallCovered(tags, tag);
    OccursFirst(text + more, Form(tag, true));
  }

  /** Outside a block and a payload, the opener is that of all names in order. */
  lemma {:induction false} OpenerOfNames(tags: seq<string>, text: string)
    ensures FirstOpener(Names(tags), text) ==
            if FirstOpener(tags, text).Some? then FirstOpener(tags, text)
            else if Starts(text, Form(TOOL_CALL, false)) then Some(TOOL_CALL) else None
  {
    hide Starts, Form;
    if tags == [] {
      assert Names(tags)[0] == TOOL_CALL && Names(tags)[1..] == [];
    } else {
      OpenerOfNames(tags[1..], text);
      assert Names(tags)[0] == tags[0] && Names(tags)[1..] == Names(tags[1..]);
    }
  }

  lemma OutsideExtends(tags: seq<string>, st: State, text: string, more: string)
    requires Steady(tags, text + more)
    requires st.currentTag.None? && Structural(tags, st, text).Some?
    ensures Structural(tags, st, text + more) == Structural(tags, st, text)
  {
    hide Starts, Form, Names, FirstOpener, Shadows, Occurs;
    if st.toolCallBuf.None? {
      forall form | Starts(text + more, form) ensures Occurs(text + more, form) { OccursFirst(text + more, form); }
      OpenerOfNames(tags, text);
      OpenerOfNames(tags, text + more);
      OpenerStable(Names(tags), text, more);
      if FirstOpener(tags, text).Some? { StartsExtends(text, more, Form(FirstOpener(tags, text).value, false)); }
    } else {
      StartsExtends(text, more, Form(TOOL_CALL, true));
    }
  }

  /** When nothing matches and the text is no partial tag, nothing will match later. */
  lemma NothingLater(tags: seq<string>, st: State, text: string, more: string)
    requires ValidState(tags, st) && text != "" && text[0] == '<'
    requires Structural(tags, st, text).None? && !CouldBePartial(tags, text)
    ensures Structural(tags, st, text + more).None?
  {
    NoNewMatch(tags, text, more, TOOL_CALL, false);
    NoNewMatch(tags, text, more, TOOL_CALL, true);
    if st.currentTag.Some? {
      NoNewMatch(tags, text, more, st.currentTag.value, true);
    } else if FirstOpener(tags, text + more).Some? {
      var tag := FirstOpener(tags, text + more).value;
      NoNewMatch(tags, text, more, tag, false);
    }
  }

  lemma NoNewMatch(tags: seq<string>, text: string, more: string, tag: string, close: bool)
    requires tag in tags + [TOOL_CALL] && !CouldBePartial(tags, text)
    ensures Starts(text + more, Form(tag, close)) ==> Starts(text, Form(tag, close))
  {
    if Starts(text + more, Form(tag, close)) && !Starts(text, Form(tag, close)) {
      StartsLater(text, more, Form(tag, close));
    }
  }

  /** A turn that does not wait is the same turn with more input behind it. */
  lemma TakeExtends(tags: seq<string>, st: State, text: string, more: string)
    requires LowerCase(tags) && Steady(tags, text + more) && ValidState(tags, st)
    requires text != "" && !Waits(tags, st, text)
    ensures Take(tags, st, text + more) == Take(tags, st, text)
  {
    if text[0] == '<' {
      if Structural(tags, st, text).Some? {
        StructuralExtends(tags, st, text, more);
      } else {
        NothingLater(tags, st, text, more);
      }
    }
  }

  predicate MatchesOnlyLater(text: string, more: string, tag: string, close: bool) {
    !Starts(text, Form(tag, close)) && Starts(text + more, Form(tag, close))
  }

  /** `couldBePartialTag` is exact: it holds just when some further input completes a known tag here. */
  lemma LookAheadExact(tags: seq<string>, text: string)
    requires LowerCase(tags)
    ensures CouldBePartial(tags, text) <==>
            exists tag, close, more :: tag in tags + [TOOL_CALL] && MatchesOnlyLater(text, more, tag, close)
  {
    ToolCallIsLower();
    if CouldBePartial(tags, text) {
      var tag, close := WhichPartial(tags, text);
      var more := Form(tag, close)[|text|..];
      Completion(text, tag, close);
      assert MatchesOnlyLater(text, more, tag, close);
    }
    if exists tag, close, more :: tag in tags + [TOOL_CALL] && MatchesOnlyLater(text, more, tag, close) {
      var tag, close, more :| tag in tags + [TOOL_CALL] && MatchesOnlyLater(text, more, tag, close);
      StartsLater(text, more, Form(tag, close));
      assert PartialOfTag(Lower(text), tag);
    }
  }

  lemma Completion(text: string, tag: string, close: bool)
    requires Lower(tag) == tag && StrictPrefixOf(Lower(text), Form(tag, close))
    ensures Starts(text + Form(tag, close)[|text|..], Form(tag, close))
  {
    var form := Form(tag, close);
    var whole := text + form[|text|..];
    forall k | 0 <= k < |form| ensures LowerChar(whole[k]) == form[k] {
      if k < |text| {
        assert Lower(text)[k] == form[k];
      } else {
        FormChars(tag, close, k);
        assert forall j :: 0 <= j < |tag| ==> Lower(tag)[j] == LowerChar(tag[j]);
      }
    }
    assert whole[..|form|] == whole;
    assert Lower(whole) == form;
  }

  lemma WhichPartial(tags: seq<string>, text: string) returns (tag: string, close: bool)
    requires CouldBePartial(tags, text)
    ensures tag in tags + [TOOL_CALL] && StrictPrefixOf(Lower(text), Form(tag, close))
  {
    var slice := Lower(text);
    if slice == "<" || slice == "</" {
      tag, close := TOOL_CALL, true;
      assert slice == Form(TOOL_CALL, true)[..|slice|];
    } else {
      tag :| tag in tags + [TOOL_CALL] && PartialOfTag(slice, tag);
      close := !StrictPrefixOf(slice, Form(tag, false));
    }
  }

  lemma TakeValid(tags: seq<string>, st: State, text: string)
    requires LowerCase(tags) && text != "" && ValidState(tags, st)
    ensures ValidState(tags, Take(tags, st, text).next) && |Take(tags, st, text).events| <= 1
  {
    hide Starts, Form, Lower;
    if FirstOpener(tags, text).Some? { OpensItself(tags, text); }
  }

  /** The name that opens a text also opens its own form. */
  lemma OpensItself(tags: seq<string>, text: string)
    requires LowerCase(tags) && FirstOpener(tags, text).Some?
    ensures var tag := FirstOpener(tags, text).value; FirstOpener(tags, Form(tag, false)) == Some(tag)
  {
    hide Form, Lower, Starts;
    var j := OpenerIndex(tags, text);
    FormStarts(tags[j], false);
    forall m | 0 <= m < j ensures !Starts(Form(tags[j], false), Form(tags[m], false)) {
      if Starts(Form(tags[j], false), Form(tags[m], false)) {
        PrefixOfForm(tags[m], tags[j]);
        CoverStarts(text, tags[m], tags[j], false);
      }
    }
    OpenerAt(tags, Form(tags[j], false), j);
  }

  lemma PrefixOfForm(a: string, b: string)
    requires Lower(b) == b && Starts(Form(b, false), Form(a, false))
    ensures Covers(a, b)
  {
    FormStarts(b, false);
    BothStart(Form(b, false), a, b, false);
  }

  lemma {:induction false} PumpValid(tags: seq<string>, st: State, buffer: string)
    requires LowerCase(tags) && ValidState(tags, st)
    ensures ValidState(tags, Pump(tags, st, buffer).st)
    decreases |buffer|
  {
    hide Take, Waits, LowerCase, ValidState;
    if buffer != "" && !Waits(tags, st, buffer) {
      TakeValid(tags, st, buffer);
      PumpUnfold(tags, st, buffer);
      PumpValid(tags, Take(tags, st, buffer).next, buffer[Take(tags, st, buffer).width..]);
    }
  }

  // ---- Pumping then scanning is scanning ----

  lemma {:induction false} PumpThenScan(tags: seq<string>, st: State, buffer: string, more: string)
    requires LowerCase(tags) && Steady(tags, buffer + more) && ValidState(tags, st)
    ensures var p := Pump(tags, st, buffer);
            ValidState(tags, p.st) && Scan(tags, st, buffer + more) == Prefixed(p.events, Scan(tags, p.st, p.rest + more))
    decreases |buffer|
  {
    hide Take, Waits, LowerCase, Steady, ValidState, Scan, Pump, Prefixed;
    if buffer == "" || Waits(tags, st, buffer) {
      PumpStops(tags, st, buffer, more);
    } else {
      var t := Take(tags, st, buffer);
      TakeExtends(tags, st, buffer, more);
      TakeValid(tags, st, buffer);
      TailSteady(tags, buffer, more, t.width);
      PumpThenScan(tags, t.next, buffer[t.width..], more);
      ScanUnfold(tags, st, buffer + more);
      PumpUnfold(tags, st, buffer);
      var p := Pump(tags, t.next, buffer[t.width..]);
      PrefixedTwice(t.events, p.events, Scan(tags, p.st, p.rest + more));
    }
  }

  lemma PumpStops(tags: seq<string>, st: State, buffer: string, more: string)
    requires buffer == "" || Waits(tags, st, buffer)
    ensures var p := Pump(tags, st, buffer);
            p.st == st && Scan(tags, st, buffer + more) == Prefixed(p.events, Scan(tags, p.st, p.rest + more))
  {
    hide Scan, Take, Waits;
  }

  lemma PrefixedTwice(a: seq<Event>, b: seq<Event>, s: Scanned)
    ensures Prefixed(a, Prefixed(b, s)) == Prefixed(a + b, s)
  {
    assert a + (b + s.events) == (a + b) + s.events;
  }

  lemma TailSteady(tags: seq<string>, buffer: string, more: string, width: nat)
    requires width <= |buffer| && Steady(tags, buffer + more)
    ensures (buffer + more)[width..] == buffer[width..] + more && Steady(tags, buffer[width..] + more)
  {
    hide Steady;
    assert (buffer + more)[width..] == buffer[width..] + more;
    SteadyTail(tags, buffer + more, width);
  }

  /** A pump retains the end of its buffer. */
  lemma {:induction false} PumpSuffix(tags: seq<string>, st: State, buffer: string)
    ensures var rest := Pump(tags, st, buffer).rest;
            |rest| <= |buffer| && rest == buffer[|buffer| - |rest|..]
    decreases |buffer|
  {
    if buffer != "" && !Waits(tags, st, buffer) {
      hide Take, Waits;
      PumpUnfold(tags, st, buffer);
      PumpSuffix(tags, Take(tags, st, buffer).next, buffer[Take(tags, st, buffer).width..]);
    }
  }

  function Prefixed(events: seq<Event>, s: Scanned): Scanned {
    Scanned(events + s.events, s.st)
  }

  lemma ScanUnfold(tags: seq<string>, st: State, text: string)
    requires text != ""
    ensures var t := Take(tags, st, text);
            Scan(tags, st, text) == Prefixed(t.events, Scan(tags, t.next, text[t.width..]))
  {
  }

  lemma PumpThenTold(tags: seq<string>, st: State, buffer: string, more: string)
    requires LowerCase(tags) && Steady(tags, buffer + more) && ValidState(tags, st)
    ensures var p := Pump(tags, st, buffer);
            ValidState(tags, p.st) && Told(tags, st, buffer + more) == p.events + Told(tags, p.st, p.rest + more)
  {
    PumpThenScan(tags, st, buffer, more);
  }

  // ---- Whole runs ----

  /** Everything a parser emits when it is fed the chunks in order and then flushed. */
  function Run(tags: seq<string>, st: State, buffer: string, chunks: seq<string>): seq<Event>
    decreases |chunks|
  {
    if chunks == [] then
      Merge(Told(tags, st, buffer))
    else
      var p := Pump(tags, st, buffer + chunks[0]);
      Merge(p.events) + Run(tags, p.st, p.rest, chunks[1..])
  }

  lemma {:induction false} RunMeaning(tags: seq<string>, st: State, buffer: string, chunks: seq<string>)
    requires LowerCase(tags) && Steady(tags, buffer + Concat(chunks)) && ValidState(tags, st)
    ensures Merge(Run(tags, st, buffer, chunks)) == Merge(Told(tags, st, buffer + Concat(chunks)))
    decreases |chunks|
  {
    if chunks == [] {
      assert buffer + Concat(chunks) == buffer;
      MergeIdempotent(Told(tags, st, buffer));
    } else {
      hide *;
      var fed, later := buffer + chunks[0], Concat(chunks[1..]);
      var p := Pump(tags, st, fed);
      ConcatFirst(buffer, chunks);
      PumpThenTold(tags, st, fed, later);
      RestSteady(tags, st, fed, later);
      RunMeaning(tags, p.st, p.rest, chunks[1..]);
      RunStep(tags, st, buffer, chunks);
    }
  }

  lemma RestSteady(tags: seq<string>, st: State, fed: string, later: string)
    requires Steady(tags, fed + later)
    ensures Steady(tags, Pump(tags, st, fed).rest + later)
  {
    hide *;
    var p := Pump(tags, st, fed);
    PumpSuffix(tags, st, fed);
    TailSteady(tags, fed, later, |fed| - |p.rest|);
  }

  lemma ConcatFirst(buffer: string, chunks: seq<string>)
    requires chunks != []
    ensures buffer + Concat(chunks) == (buffer + chunks[0]) + Concat(chunks[1..])
  {
  }

  lemma RunStep(tags: seq<string>, st: State, buffer: string, chunks: seq<string>)
    requires chunks != []
    requires var p := Pump(tags, st, buffer + chunks[0]);
             var later := Concat(chunks[1..]);
             && Told(tags, st, (buffer + chunks[0]) + later) == p.events + Told(tags, p.st, p.rest + later)
             && Merge(Run(tags, p.st, p.rest, chunks[1..])) == Merge(Told(tags, p.st, p.rest + later))
    ensures Merge(Run(tags, st, buffer, chunks)) == Merge(Told(tags, st, buffer + Concat(chunks)))
  {
    hide Merge, Pump, Told;
    var p := Pump(tags, st, buffer + chunks[0]);
    var later := Concat(chunks[1..]);
    ConcatFirst(buffer, chunks);
    MergeGlue(p.events, Run(tags, p.st, p.rest, chunks[1..]), Told(tags, p.st, p.rest + later));
  }

  lemma MergeIdempotent(es: seq<Event>)
    ensures Merge(Merge(es)) == Merge(es)
  {
    MergeTail([], es);
    assert [] + Merge(es) == Merge(es) && [] + es == es;
  }

  lemma MergeGlue(a: seq<Event>, b: seq<Event>, c: seq<Event>)
    requires Merge(b) == Merge(c)
    ensures Merge(Merge(a) + b) == Merge(a + c)
  {
    hide *;
    MergeHead(a, b);
    MergeTail(a, b);
    MergeTail(a, c);
  }

  /** Chunk invariance: only the text matters, never where it was cut, when it opens and closes no shadowed name. */
  lemma ChunkInvariance(tags: seq<string>, chunks: seq<string>, others: seq<string>)
    requires LowerCase(tags) && Steady(tags, Concat(chunks)) && Concat(chunks) == Concat(others)
    ensures Merge(Run(tags, INITIAL, "", chunks)) == Merge(Run(tags, INITIAL, "", others))
  {
    assert "" + Concat(chunks) == Concat(chunks);
    RunMeaning(tags, INITIAL, "", chunks);
    RunMeaning(tags, INITIAL, "", others);
  }

  /** In particular any chunking says what feeding the whole text at once says. */
  lemma ChunkedIsWhole(tags: seq<string>, chunks: seq<string>)
    requires LowerCase(tags) && Steady(tags, Concat(chunks))
    ensures Merge(Run(tags, INITIAL, "", chunks)) == Merge(Run(tags, INITIAL, "", [Concat(chunks)]))
    ensures Merge(Run(tags, INITIAL, "", chunks)) == Merge(Meaning(tags, Concat(chunks)))
  {
    var whole := Concat(chunks);
    assert Concat([whole]) == whole + Concat([]) == whole;
    ChunkInvariance(tags, chunks, [whole]);
    assert "" + whole == whole;
    RunMeaning(tags, INITIAL, "", chunks);
  }

  // ---- Shadowed names break it ----

  /** The cut that a shadowed name gives away: behind the form of the name that shadows it. */
  function CutAt(long: string, short: string): seq<string>
    requires Covers(short, long)
  {
    CoversForms(short, long, false);
    [Form(short, false), Form(long, false)[|Form(short, false)|..]]
  }

  /** The first event of a run from the first event of its first pump. */
  lemma RunFirst(tags: seq<string>, st: State, chunks: seq<string>)
    requires chunks != []
    requires var es := Pump(tags, st, "" + chunks[0]).events; es != [] && !es[0].Text? && !es[0].ReasoningDelta?
    ensures var said := Merge(Run(tags, st, "", chunks));
            said != [] && said[0] == Pump(tags, st, "" + chunks[0]).events[0]
  {
    hide Merge, Pump;
    MergeFirst(Pump(tags, st, "" + chunks[0]).events);
    MergeFirst(Run(tags, st, "", chunks));
  }

  lemma PumpOpens(tags: seq<string>, text: string, tag: string)
    requires FirstOpener(tags, text) == Some(tag)
    ensures Pump(tags, INITIAL, text).events != [] && Pump(tags, INITIAL, text).events[0] == ReasoningStart(tag)
  {
    assert Lower(text[..|Form(tag, false)|])[0] == '<';
    hide Pump, Form;
    assert Take(tags, INITIAL, text) == Turn([ReasoningStart(tag)], Opened(tag), |Form(tag, false)|);
    PumpUnfold(tags, INITIAL, text);
  }

  lemma PumpUnfold(tags: seq<string>, st: State, buffer: string)
    requires buffer != "" && !Waits(tags, st, buffer)
    ensures var t := Take(tags, st, buffer);
            Pump(tags, st, buffer).events == t.events + Pump(tags, t.next, buffer[t.width..]).events
    ensures var t := Take(tags, st, buffer);
            Pump(tags, st, buffer).st == Pump(tags, t.next, buffer[t.width..]).st
    ensures var t := Take(tags, st, buffer);
            Pump(tags, st, buffer).rest == Pump(tags, t.next, buffer[t.width..]).rest
  {
  }

  /** While a payload is collected outside a block, nothing is said before its span. */
  predicate SpanFirst(es: seq<Event>) { es != [] ==> es[0].ToolCallSpan? }

  predicate Collecting(st: State) { st.currentTag.None? && st.toolCallBuf.Some? }

  lemma CollectingTurn(tags: seq<string>, st: State, text: string)
    requires Collecting(st) && text != ""
    ensures var t := Take(tags, st, text); SpanFirst(t.events) && (t.events == [] ==> Collecting(t.next))
  {
  }

  lemma {:induction false} CollectingScan(tags: seq<string>, st: State, text: string)
    requires Collecting(st)
    ensures SpanFirst(Told(tags, st, text))
    decreases |text|
  {
    if text != "" {
      hide Take;
      CollectingTurn(tags, st, text);
      var t := Take(tags, st, text);
      if t.events == [] {
        CollectingScan(tags, t.next, text[t.width..]);
        assert Scan(tags, st, text).events == Scan(tags, t.next, text[t.width..]).events;
      }
    }
  }

  lemma {:induction false} CollectingPump(tags: seq<string>, st: State, buffer: string)
    requires Collecting(st)
    ensures var p := Pump(tags, st, buffer); SpanFirst(p.events) && (p.events == [] ==> Collecting(p.st))
    decreases |buffer|
  {
    if buffer != "" && !Waits(tags, st, buffer) {
      hide Take, Waits;
      CollectingTurn(tags, st, buffer);
      PumpUnfold(tags, st, buffer);
      var t := Take(tags, st, buffer);
      if t.events == [] { CollectingPump(tags, t.next, buffer[t.width..]); }
    }
  }

  lemma SpanFirstMerged(es: seq<Event>)
    requires SpanFirst(es)
    ensures SpanFirst(Merge(es))
  {
    if es != [] { MergeFirst(es); }
  }

  lemma CollectingRun(tags: seq<string>, st: State, chunk: string)
    requires Collecting(st)
    ensures SpanFirst(Run(tags, st, "", [chunk]))
  {
    hide Pump, Told, Merge;
    CollectingPump(tags, st, "" + chunk);
    var p := Pump(tags, st, "" + chunk);
    SpanFirstMerged(p.events);
    if p.events == [] {
      CollectingScan(tags, p.st, p.rest);
      SpanFirstMerged(Told(tags, p.st, p.rest));
      assert Merge([]) == [] by { NothingMerged(); }
    } else {
      MergeIsNormal(p.events);
    }
    assert [chunk][1..] == [];
  }

  lemma NothingMerged()
    ensures Merge([]) == []
  {
  }

  /** Cutting behind a shadowing tool-call form starts a payload and no block. */
  lemma ToolCallShadow(tags: seq<string>, rest: string)
    requires FirstOpener(tags, Form(TOOL_CALL, false)).None?
    ensures SpanFirst(Merge(Run(tags, INITIAL, "", [Form(TOOL_CALL, false), rest])))
  {
    var form := Form(TOOL_CALL, false);
    ToolCallIsLower();
    FormStarts(TOOL_CALL, false);
    hide Pump, Merge, Told, Waits, Shadowed;
    var st := State(None, Some(""));
    assert Take(tags, INITIAL, form) == Turn([], st, |form|);
    assert !Waits(tags, INITIAL, form) by { NotWaiting(tags, form); }
    PumpUnfold(tags, INITIAL, form);
    assert form[|form|..] == "" && "" + form == form;
    PumpNothing(tags, st);
    NothingMerged();
    assert [form, rest][1..] == [rest];
    CollectingRun(tags, st, rest);
    assert Run(tags, INITIAL, "", [form, rest]) == [] + Run(tags, st, "", [rest]);
    SpanFirstMerged(Run(tags, INITIAL, "", [form, rest]));
  }

  lemma NotWaiting(tags: seq<string>, text: string)
    requires text != "" && Structural(tags, INITIAL, text).Some?
    ensures !Waits(tags, INITIAL, text)
  {
  }

  lemma PumpNothing(tags: seq<string>, st: State)
    ensures Pump(tags, st, "") == Pumped([], st, "")
  {
  }

  lemma CutIsWhole(long: string, short: string)
    requires Covers(short, long)
    ensures Concat(CutAt(long, short)) == Concat([Form(long, false)])
  {
    CoversForms(short, long, false);
    var cut, a, b := CutAt(long, short), Form(short, false), Form(long, false);
    OneChunk(b);
    OneChunk(b[|a|..]);
    assert cut[0] == a && cut[1..] == [b[|a|..]];
  }

  lemma OneChunk(chunk: string)
    ensures Concat([chunk]) == chunk
  {
    assert [chunk][1..] == [] && Concat([]) == "";
  }

  /** The longer form as one chunk opens a block of an earlier name than the shadowing one. */
  lemma WholeOpens(tags: seq<string>, i: nat, j: nat) returns (m: nat)
    requires LowerCase(tags) && Shadows(Names(tags), i, j)
    ensures m < j && m < |tags|
    ensures var said := Merge(Run(tags, INITIAL, "", [Form(Names(tags)[i], false)]));
            said != [] && said[0] == ReasoningStart(tags[m])
  {
    ShadowOrder(tags, i, j);
    hide Run, Pump, Merge, Shadows, Form, Starts, Lower, Take;
    var long := Form(Names(tags)[i], false);
    FormStarts(tags[i], false);
    m := OpenerIndex(tags, long);
    assert "" + long == long;
    PumpOpens(tags, long, tags[m]);
    RunFirst(tags, INITIAL, [long]);
  }

  lemma ShadowOrder(tags: seq<string>, i: nat, j: nat)
    requires Shadows(Names(tags), i, j)
    ensures i < j <= |tags| && Names(tags)[i] == tags[i] && (j < |tags| ==> Names(tags)[j] == tags[j])
    ensures j == |tags| ==> Names(tags)[j] == TOOL_CALL
    ensures forall k :: 0 <= k < j ==> Names(tags)[k] == tags[k] && !Covers(tags[k], Names(tags)[j])
  {
  }

  /** Nothing before the shadowing name matches its form. */
  lemma NothingBefore(tags: seq<string>, i: nat, j: nat)
    requires LowerCase(tags) && Shadows(Names(tags), i, j)
    ensures forall k :: 0 <= k < j ==> !Starts(Form(Names(tags)[j], false), Form(tags[k], false))
    ensures j < |tags| ==> FirstOpener(tags, Form(tags[j], false)) == Some(tags[j])
    ensures j == |tags| ==> FirstOpener(tags, Form(TOOL_CALL, false)) == None
  {
    hide Shadows, Form, Starts, Lower;
    ShadowOrder(tags, i, j);
    ToolCallIsLower();
    var short := Form(Names(tags)[j], false);
    forall k | 0 <= k < j ensures !Starts(short, Form(tags[k], false)) {
      if Starts(short, Form(tags[k], false)) { PrefixOfForm(tags[k], Names(tags)[j]); }
    }
    if j < |tags| {
      FormStarts(tags[j], false);
      OpenerAt(tags, short, j);
    } else if FirstOpener(tags, short).Some? {
      var k := OpenerIndex(tags, short);
    }
  }

  /** The longer form, whole and cut behind the shadowing one, says different things. */
  lemma ShadowBreaks(tags: seq<string>, i: nat, j: nat)
    requires LowerCase(tags) && Shadows(Names(tags), i, j)
    ensures var whole, cut := [Form(Names(tags)[i], false)], CutAt(Names(tags)[i], Names(tags)[j]);
            && Concat(cut) == Concat(whole)
            && Merge(Run(tags, INITIAL, "", cut)) != Merge(Run(tags, INITIAL, "", whole))
  {
    CutIsWhole(Names(tags)[i], Names(tags)[j]);
    var m := WholeOpens(tags, i, j);
    NothingBefore(tags, i, j);
    ShadowOrder(tags, i, j);
    var cut := CutAt(Names(tags)[i], Names(tags)[j]);
    hide Run, Pump, Merge, Shadows, Form, Starts, Lower, FirstOpener;
    var short := cut[0];
    assert "" + short == short;
    if j < |tags| {
      PumpOpens(tags, short, tags[j]);
      RunFirst(tags, INITIAL, cut);
      assert Covers(tags[j], tags[j]) && tags[m] != tags[j];
    } else {
      assert cut == [short, cut[1]];
      ToolCallShadow(tags, cut[1]);
    }
  }

  ghost predicate SameSaid(tags: seq<string>, chunks: seq<string>, others: seq<string>) {
    Concat(chunks) == Concat(others) ==>
      Merge(Run(tags, INITIAL, "", chunks)) == Merge(Run(tags, INITIAL, "", others))
  }

  /** The exact rule: what is said never depends on the chunks if and only if no name shadows another. */
  lemma InvariantExactly(tags: seq<string>)
    requires LowerCase(tags)
    ensures (forall chunks, others :: SameSaid(tags, chunks, others)) <==> !Shadowed(tags)
  {
    if Shadowed(tags) {
      var i: nat, j: nat :| i < j < |Names(tags)| && Shadows(Names(tags), i, j);
      ShadowBreaks(tags, i, j);
      assert !SameSaid(tags, CutAt(Names(tags)[i], Names(tags)[j]), [Form(Names(tags)[i], false)]);
    } else {
      forall chunks, others ensures SameSaid(tags, chunks, others) {
        UnshadowedSteady(tags, Concat(chunks));
        if Concat(chunks) == Concat(others) { ChunkInvariance(tags, chunks, others); }
      }
    }
  }

  /**
   With the names `a>` and `a`, in this order, the text `<a>>` says different things whole and cut
   behind its third character; a lone name with `>` does no harm.
   */
  lemma BracketInTagBreaksInvariance()
    ensures Merge(Run(["a>", "a"], INITIAL, "", ["<a>", ">"])) != Merge(Run(["a>", "a"], INITIAL, "", ["<a>>"]))
    ensures Shadowed(["a>", "a"]) && !Shadowed(["a>"])
  {
    BracketNames();
    BracketCut();
    hide Run, Merge, Shadows, Shadowed, LowerCase, Covers, Form, CutAt, Names, Concat;
    ShadowBreaks(["a>", "a"], 0, 1);
  }

  lemma BracketNames()
    ensures LowerCase(["a>", "a"]) && Shadows(Names(["a>", "a"]), 0, 1)
    ensures Shadowed(["a>", "a"]) && !Shadowed(["a>"])
  {
    var names := Names(["a>", "a"]);
    assert Lower("a>") == "a>" && Lower("a") == "a";
    assert names == ["a>", "a", TOOL_CALL];
    assert "a>" + ">" == "a>>" && "a" + ">" == "a>" && "a>>"[..2] == "a>";
    assert Covers("a", "a>") && !Covers("a>", "a");
    assert Shadows(names, 0, 1);
    assert Names(["a>"]) == ["a>", TOOL_CALL];
    assert (TOOL_CALL + ">")[0] == 't' && "a>>"[0] == 'a';
    assert !Covers(TOOL_CALL, "a>");
  }

  lemma BracketCut()
    ensures var names := Names(["a>", "a"]);
            && Covers(names[1], names[0]) && CutAt(names[0], names[1]) == ["<a>", ">"]
            && [Form(names[0], false)] == ["<a>>"]
  {
    assert Form("a>", false) == "<a>>" && Form("a", false) == "<a>" && "<a>>"[3..] == ">";
    assert "a>" + ">" == "a>>" && "a" + ">" == "a>" && "a>>"[..2] == "a>";
  }

  // ---- Shape of the stream ----

  function PositionOf(st: State): Position {
    if st.currentTag.Some? then Inside(st.currentTag.value) else Outside
  }

  lemma TakeShape(tags: seq<string>, st: State, text: string)
    requires text != "" && "" !in tags
    ensures After(PositionOf(st), Take(tags, st, text).events) == PositionOf(Take(tags, st, text).next)
  {
    var es := Take(tags, st, text).events;
    if es != [] { assert es[..|es| - 1] == []; }
  }

  lemma {:induction false} ScanShape(tags: seq<string>, st: State, text: string)
    requires "" !in tags
    ensures After(PositionOf(st), Scan(tags, st, text).events) == PositionOf(Scan(tags, st, text).st)
    decreases |text|
  {
    if text != "" {
      var t := Take(tags, st, text);
      TakeShape(tags, st, text);
      ScanShape(tags, t.next, text[t.width..]);
      AfterConcat(PositionOf(st), t.events, Scan(tags, t.next, text[t.width..]).events);
    }
  }

  lemma {:induction false} PumpShape(tags: seq<string>, st: State, buffer: string)
    requires "" !in tags
    ensures After(PositionOf(st), Pump(tags, st, buffer).events) == PositionOf(Pump(tags, st, buffer).st)
    decreases |buffer|
  {
    if buffer != "" && !Waits(tags, st, buffer) {
      var t := Take(tags, st, buffer);
      TakeShape(tags, st, buffer);
      PumpShape(tags, t.next, buffer[t.width..]);
      AfterConcat(PositionOf(st), t.events, Pump(tags, t.next, buffer[t.width..]).events);
    }
  }

  lemma ClosingShape(st: State)
    ensures After(PositionOf(st), Closing(st)) == Outside
  {
    assert Closing(st) != [] ==> Closing(st)[..0] == [];
  }

  lemma ToldShape(tags: seq<string>, st: State, text: string)
    requires "" !in tags
    ensures After(PositionOf(st), Merge(Told(tags, st, text))) == Outside
  {
    hide Scan, Merge, After, Closing, PositionOf;
    var s := Scan(tags, st, text);
    ScanShape(tags, st, text);
    ClosingShape(s.st);
    AfterConcat(PositionOf(st), s.events, Closing(s.st));
    AfterMerge(PositionOf(st), Told(tags, st, text));
  }

  /** Every run is well formed from its state on, and the flush closes whatever is open. */
  lemma {:induction false} RunShape(tags: seq<string>, st: State, buffer: string, chunks: seq<string>)
    requires "" !in tags
    ensures After(PositionOf(st), Run(tags, st, buffer, chunks)) == Outside
    decreases |chunks|
  {
    hide Pump, Merge, After, Told, PositionOf;
    if chunks == [] {
      ToldShape(tags, st, buffer);
    } else {
      var p := Pump(tags, st, buffer + chunks[0]);
      PumpShape(tags, st, buffer + chunks[0]);
      AfterMerge(PositionOf(st), p.events);
      RunShape(tags, p.st, p.rest, chunks[1..]);
      AfterConcat(PositionOf(st), Merge(p.events), Run(tags, p.st, p.rest, chunks[1..]));
    }
  }

  ghost predicate WellFormed(tags: seq<string>, chunks: seq<string>) {
    After(Outside, Run(tags, INITIAL, "", chunks)) == Outside
  }

  /** All runs of a new parser are well formed if and only if no name is empty: an empty one is never closed. */
  lemma RunShapeExactly(tags: seq<string>)
    ensures (forall chunks :: WellFormed(tags, chunks)) <==> "" !in tags
  {
    if "" in tags {
      EmptyNameStaysOpen(tags);
      assert !WellFormed(tags, ["<>"]);
    } else {
      forall chunks ensures WellFormed(tags, chunks) { RunShape(tags, INITIAL, "", chunks); }
    }
  }

  lemma EmptyNameStaysOpen(tags: seq<string>)
    requires "" in tags
    ensures Run(tags, INITIAL, "", ["<>"]) == [ReasoningStart("")] && After(Outside, [ReasoningStart("")]) == Inside("")
  {
    EmptyNameOpens(tags);
    assert Lower("<>") == "<>" && "" + "<>" == "<>";
    assert Structural(tags, INITIAL, "<>") == Some(Turn([ReasoningStart("")], INITIAL, 2));
    assert Take(tags, INITIAL, "<>") == Turn([ReasoningStart("")], INITIAL, 2) && !Waits(tags, INITIAL, "<>");
    PumpUnfold(tags, INITIAL, "<>");
    assert "<>"[2..] == "";
    PumpNothing(tags, INITIAL);
    assert [ReasoningStart("")][..0] == [] && [ReasoningStart("")] + [] == [ReasoningStart("")];
    assert ["<>"][1..] == [];
  }

  lemma EmptyNameOpens(tags: seq<string>)
    requires "" in tags
    ensures FirstOpener(tags, "<>") == Some("")
  {
    assert Lower("<>") == "<>" && Form("", false) == "<>";
    assert "<>"[..2] == "<>" && Starts("<>", Form("", false));
    var name := FirstOpener(tags, "<>").value;
    assert |Form(name, false)| == |name| + 2 <= 2;
  }

  /** Between feeds the buffer is empty or a `<`-led strict prefix of a known tag form. */
  lemma {:induction false} RestIsPartial(tags: seq<string>, st: State, buffer: string)
    ensures var rest := Pump(tags, st, buffer).rest;
            rest == "" ||
            (rest[0] == '<' && exists t, close :: t in tags + [TOOL_CALL] && StrictPrefixOf(Lower(rest), Form(t, close)))
    decreases |buffer|
  {
    if buffer == "" {
    } else if Waits(tags, st, buffer) {
      var t, close := WhichPartial(tags, buffer);
    } else {
      var t := Take(tags, st, buffer);
      RestIsPartial(tags, t.next, buffer[t.width..]);
    }
  }

  /** The retained tail is shorter than the longest closing tag, whatever was fed. */
  lemma RestIsShort(tags: seq<string>, st: State, buffer: string, longest: nat)
    requires forall t :: t in tags + [TOOL_CALL] ==> |t| <= longest
    ensures |Pump(tags, st, buffer).rest| <= longest + 2
  {
    RestIsPartial(tags, st, buffer);
  }
}
