/**
 For which tag names the two reasoning parsers agree (packages/core/src/reasoning-blocks.ts:118-489): exactly
 when no name is empty and none that can open in a text without tool-call tags is shadowed.
 */
module StreamingAgreement {
  import opened Options
  import opened ReasoningTags
  import opened ReasoningEvents
  import opened StreamingScan
  import opened BatchParser
  import opened StreamingRefinesBatch

  /** On a chunked text without tool-call tags the parsers agree exactly if every block that opens also closes. */
  ghost predicate Consistent(tags: seq<string>, chunks: seq<string>) {
    var text := Concat(chunks);
    ToolFree(text) ==>
      (Agrees(Run(tags, INITIAL, "", chunks), Parse(tags, text, 0)) <==> Unclosed(tags, text, 0).None?)
  }

  /** Is a name shadowed whose opener holds no tool-call tag itself? */
  predicate ShadowsOpenly(tags: seq<string>) {
    exists i: nat, j: nat | i < j < |tags| :: Shadows(tags, i, j) && ToolFree(Form(tags[i], false))
  }

  // ---- Texts without tool-call tags ----

  predicate NoToolForm(text: string) {
    !Starts(text, Form(TOOL_CALL, false)) && !Starts(text, Form(TOOL_CALL, true))
  }

  lemma LowerTwice(c: char)
    ensures LowerChar(LowerChar(c)) == LowerChar(c)
  {
  }

  lemma StartsChars(text: string, form: string)
    ensures Starts(text, form) <==> |form| <= |text| && forall p :: 0 <= p < |form| ==> LowerChar(text[p]) == form[p]
  {
    if |form| <= |text| {
      var low := Lower(text[..|form|]);
      assert forall p :: 0 <= p < |form| ==> low[p] == LowerChar(text[p]);
      if forall p :: 0 <= p < |form| ==> LowerChar(text[p]) == form[p] { assert low == form; }
    }
  }

  /** What matches somewhere in such a text is such a text. */
  lemma PartToolFree(text: string, k: nat, part: string)
    requires k <= |text| && ToolFree(text) && Starts(text[k..], part)
    ensures ToolFree(part)
  {
    hide Starts, Form;
    StartsChars(text[k..], part);
    forall p | 0 <= p < |part| ensures NoToolForm(part[p..]) {
      PartStarts(text, k, part, p, Form(TOOL_CALL, false));
      PartStarts(text, k, part, p, Form(TOOL_CALL, true));
    }
  }

  lemma PartStarts(text: string, k: nat, part: string, p: nat, form: string)
    requires k + |part| <= |text| && p <= |part|
    requires forall q :: 0 <= q < |part| ==> LowerChar(text[k + q]) == part[q]
    ensures Starts(part[p..], form) ==> Starts(text[k + p..], form)
  {
    hide Starts;
    StartsChars(part[p..], form);
    StartsChars(text[k + p..], form);
    if Starts(part[p..], form) {
      forall q | 0 <= q < |form| ensures LowerChar(text[k + p..][q]) == form[q] {
        assert part[p..][q] == part[p + q] == LowerChar(text[k + (p + q)]);
        LowerTwice(text[k + (p + q)]);
      }
    }
  }

  lemma PrefixToolFree(text: string, n: nat)
    requires n <= |text| && ToolFree(text)
    ensures ToolFree(text[..n])
  {
    hide Starts, Form;
    forall k | 0 <= k < n ensures NoToolForm(text[..n][k..]) {
      assert text[k..] == text[..n][k..] + text[n..];
      if Starts(text[..n][k..], Form(TOOL_CALL, false)) { StartsExtends(text[..n][k..], text[n..], Form(TOOL_CALL, false)); }
      if Starts(text[..n][k..], Form(TOOL_CALL, true)) { StartsExtends(text[..n][k..], text[n..], Form(TOOL_CALL, true)); }
    }
  }

  /** Tags do not run across the end of a form: `>` ends each and occurs nowhere else in a tool-call form. */
  lemma JoinToolFree(a: string, b: string)
    requires ToolFree(a) && ToolFree(b) && a != "" && a[|a| - 1] == '>'
    ensures ToolFree(a + b)
  {
    hide Starts, Form;
    forall k | 0 <= k < |a + b| ensures NoToolForm((a + b)[k..]) {
      if k < |a| {
        assert (a + b)[k..] == a[k..] + b;
        InFirstPart(a[k..], b, false);
        InFirstPart(a[k..], b, true);
      } else {
        assert (a + b)[k..] == b[k - |a|..];
      }
    }
  }

  lemma InFirstPart(a: string, b: string, close: bool)
    requires a != "" && a[|a| - 1] == '>'
    ensures Starts(a + b, Form(TOOL_CALL, close)) ==> Starts(a, Form(TOOL_CALL, close))
  {
    var form := Form(TOOL_CALL, close);
    var last := |a| - 1;
    StartsChars(a + b, form);
    StartsChars(a, form);
    if last < |form| { FormChars(TOOL_CALL, close, last); }
  }

  /** If an opener holds no tool-call tag then its closer holds none either. */
  lemma CloserToolFree(tag: string)
    requires ToolFree(Form(tag, false))
    ensures ToolFree(Form(tag, true))
  {
    hide ToolFree;
    var open, shut := Form(tag, false), Form(tag, true);
    FormChars(tag, false, 0);
    FormChars(tag, true, 0);
    FormChars(tag, true, 1);
    forall p | 1 <= p < |open| ensures open[p] == shut[p + 1] {
      FormChars(tag, false, p);
      FormChars(tag, true, p + 1);
    }
    SlashedToolFree(open, shut);
  }

  /** A slash behind the first character brings in no tool-call tag. */
  lemma SlashedToolFree(open: string, shut: string)
    requires |shut| == |open| + 1 && open != "" && shut[0] == '<' && shut[1] == '/' && open[0] == '<'
    requires (forall p :: 1 <= p < |open| ==> open[p] == shut[p + 1]) && ToolFree(open)
    ensures ToolFree(shut)
  {
    hide Starts, Form;
    assert open[0..] == open && !Starts(open[0..], Form(TOOL_CALL, false));
    forall k | 0 <= k < |shut| ensures NoToolForm(shut[k..]) {
      if k >= 2 {
        assert shut[k..] == open[k - 1..];
      } else {
        CloserStart(open, shut, k);
      }
    }
  }

  lemma CloserStart(open: string, shut: string, k: nat)
    requires k < 2 <= |shut| && |shut| == |open| + 1 && shut[0] == '<' && shut[1] == '/' && open[0] == '<'
    requires forall p :: 1 <= p < |open| ==> open[p] == shut[p + 1]
    requires !Starts(open, Form(TOOL_CALL, false))
    ensures NoToolForm(shut[k..])
  {
    hide Starts, Form;
    var form, end := Form(TOOL_CALL, false), Form(TOOL_CALL, true);
    StartsChars(shut[k..], form);
    StartsChars(shut[k..], end);
    StartsChars(open, form);
    FormChars(TOOL_CALL, false, 0);
    FormChars(TOOL_CALL, false, 1);
    FormChars(TOOL_CALL, true, 0);
    if k == 0 && Starts(shut[k..], end) {
      forall p | 0 <= p < |form| ensures LowerChar(open[p]) == form[p] {
        FormChars(TOOL_CALL, false, p);
        FormChars(TOOL_CALL, true, p + 1);
        if p > 0 { assert LowerChar(shut[p + 1]) == end[p + 1]; }
      }
    }
  }

  /** A text without tool-call tags is steady unless it opens a name that is shadowed openly. */
  lemma ToolFreeSteady(tags: seq<string>, text: string)
    requires ToolFree(text) && !ShadowsOpenly(tags)
    ensures Steady(tags, text)
  {
    hide Starts, Form, Covers;
    var names := Names(tags);
    forall i: nat, j: nat | i < j < |names| && Shadows(names, i, j)
      ensures !Occurs(text, Form(names[i], false)) && (names[j] == TOOL_CALL ==> !Occurs(text, Form(names[i], true)))
    {
      if names[j] == TOOL_CALL {
        NeverOccurs(text, names[i], false);
        NeverOccurs(text, names[i], true);
      } else {
        assert names[i] == tags[i] && names[j] == tags[j] && forall m :: 0 <= m < j ==> names[m] == tags[m];
        assert Shadows(tags, i, j);
        if Occurs(text, Form(names[i], false)) {
          var k :| 0 <= k <= |text| && Starts(text[k..], Form(names[i], false));
          PartToolFree(text, k, Form(names[i], false));
        }
      }
    }
  }

  lemma NeverOccurs(text: string, name: string, close: bool)
    requires ToolFree(text) && Covers(TOOL_CALL, name)
    ensures !Occurs(text, Form(name, close))
  {
    if Occurs(text, Form(name, close)) {
      var k :| 0 <= k <= |text| && Starts(text[k..], Form(name, close));
      assert k < |text|;
      CoverStarts(text[k..], TOOL_CALL, name, close);
    }
  }

  // ---- An empty name ----

  lemma ShortToolFree(text: string)
    requires |text| < 11
    ensures ToolFree(text)
  {
    assert |Form(TOOL_CALL, false)| == 11 && |Form(TOOL_CALL, true)| == 12;
  }

  lemma EmptyOpens(tags: seq<string>)
    requires "" in tags && !ShadowsOpenly(tags)
    ensures FirstOpener(tags, "<></>") == Some("")
  {
    hide Form, Starts, Shadows;
    EmptyNameOpens(tags);
    ShortToolFree("<></>");
    forall i: nat, j: nat | i < j < |tags| && Shadows(tags, i, j) ensures !Starts("<></>", Form(tags[i], false)) {
      assert "<></>"[0..] == "<></>";
      if Starts("<></>", Form(tags[i], false)) { PartToolFree("<></>", 0, Form(tags[i], false)); }
    }
    assert "<>" + "</>" == "<></>";
    OpenerStable(tags, "<>", "</>");
  }

  lemma EmptyNameBatch(tags: seq<string>)
    requires FirstOpener(tags, "<></>") == Some("")
    ensures var r := Parse(tags, "<></>", 0);
            Unclosed(tags, "<></>", 0).None? && r.stripped == "" && BlockGroups(r.blocks) == [Group("", "")]
  {
    hide FirstOpener, Spans;
    var text := "<></>";
    assert Lower("</>") == "</>" && text[0..] == text && Form("", false) == "<>" && Form("", true) == "</>";
    assert NextOpener(tags, text, 0) == Some(Opener(0, ""));
    assert text[2..] == "</>" && "</>"[..3] == "</>";
    assert NextForm(text, 2, "</>") == Some(2);
    assert text[0..0] == "" && text[2..2] == "";
    var b := ReasoningBlock("", "", 0, 5);
    assert Block(text, "", 0, 2).blocks == [b];
    assert Parse(tags, text, 0).blocks == [b] && [b][1..] == [];
  }

  /** Behind its opener the empty name is forgotten, so its closer is text, or opens the name `/`. */
  lemma EmptyNameScan(tags: seq<string>)
    requires FirstOpener(tags, "<></>") == Some("")
    ensures var es := Told(tags, INITIAL, "<></>"); TextOf(es) != "" || |GroupsOf(es)| == 2
  {
    hide FirstOpener, Texts;
    var text := "<></>";
    OpenTurnEmpty(tags);
    assert text[2..] == "</>" && "</>"[0..] == "</>";
    ScanUnfold(tags, INITIAL, text);
    ShortToolFree("</>");
    var rest := Told(tags, INITIAL, "</>");
    assert Told(tags, INITIAL, text) == [ReasoningStart("")] + rest;
    if FirstOpener(tags, "</>").Some? {
      SlashOpens(tags);
      assert [ReasoningStart("")] + rest == [ReasoningStart("")] + [ReasoningStart("/")] + [ReasoningEnd("/")];
      TwoStarts();
    } else {
      NoOpenerInCloser(tags);
      ScanNoOpener(tags, "</>", 0);
      CollectTexts("</>");
      TextOfConcat([ReasoningStart("")], rest);
    }
  }

  lemma OpenTurnEmpty(tags: seq<string>)
    requires FirstOpener(tags, "<></>") == Some("")
    ensures Take(tags, INITIAL, "<></>") == Turn([ReasoningStart("")], INITIAL, 2)
  {
  }

  lemma NoOpenerInCloser(tags: seq<string>)
    requires FirstOpener(tags, "</>").None?
    ensures NoOpener(tags, "</>", 0, 3)
  {
    assert "</>"[0..] == "</>";
    forall k | 1 <= k < 3 ensures FirstOpener(tags, "</>"[k..]).None? {
      if FirstOpener(tags, "</>"[k..]).Some? {
        BeginsWithBracket("</>"[k..], FirstOpener(tags, "</>"[k..]).value, false);
      }
    }
  }

  lemma SlashOpens(tags: seq<string>)
    requires FirstOpener(tags, "</>").Some?
    ensures Told(tags, INITIAL, "</>") == [ReasoningStart("/"), ReasoningEnd("/")]
  {
    var tag := FirstOpener(tags, "</>").value;
    assert Lower("</>") == "</>" && "</>"[..3] == "</>";
    assert |tag| + 2 <= 3 && Lower("</>"[..|tag| + 2]) == Form(tag, false);
    FormChars(tag, false, 1);
    assert Lower("</>"[..|tag| + 2])[1] == '/';
    assert Form(tag, false) == "</>" && tag == "/";
    assert Take(tags, INITIAL, "</>") == Turn([ReasoningStart("/")], State(Some("/"), None), 3);
    assert "</>"[3..] == "";
    ScanUnfold(tags, INITIAL, "</>");
    assert Scan(tags, INITIAL, "</>") == Scanned([ReasoningStart("/")] + [], State(Some("/"), None));
  }

  lemma TwoStarts()
    ensures |GroupsOf([ReasoningStart("")] + [ReasoningStart("/")] + [ReasoningEnd("/")])| == 2
  {
    var one := [ReasoningStart("")];
    var two := one + [ReasoningStart("/")];
    var three := two + [ReasoningEnd("/")];
    assert three[..|three| - 1] == two && two[..|two| - 1] == one && one[..|one| - 1] == [];
    assert GroupsOf(one) == [] + [Group("", "")];
    assert GroupsOf(two) == GroupsOf(one) + [Group("/", "")] && GroupsOf(three) == GroupsOf(two);
  }

  /** With an empty name and no open shadow: the one-shot parser closes the block of `<></>`, streaming never does. */
  lemma EmptyNameDiffers(tags: seq<string>)
    requires LowerCase(tags) && "" in tags && !ShadowsOpenly(tags)
    ensures !Consistent(tags, ["<></>"])
  {
    hide *;
    var text := "<></>";
    EmptyOpens(tags);
    EmptyNameBatch(tags);
    EmptyNameScan(tags);
    ShortToolFree(text);
    ToolFreeSteady(tags, text);
    StartValid(tags);
    OneChunk(text);
    assert "" + text == text;
    RunMeaning(tags, INITIAL, "", [text]);
    CollectMerged(Run(tags, INITIAL, "", [text]));
    CollectMerged(Told(tags, INITIAL, text));
    NotConsistent(tags, [text]);
  }

  lemma StartValid(tags: seq<string>)
    ensures ValidState(tags, INITIAL)
  {
  }

  lemma NotConsistent(tags: seq<string>, chunks: seq<string>)
    requires var text := Concat(chunks); ToolFree(text) && Unclosed(tags, text, 0).None?
    requires var es, r := Run(tags, INITIAL, "", chunks), Parse(tags, Concat(chunks), 0);
             TextOf(es) != r.stripped || GroupsOf(es) != BlockGroups(r.blocks)
    ensures !Consistent(tags, chunks)
  {
    hide Run, Parse, Unclosed, ToolFree, TextOf, GroupsOf, BlockGroups;
  }

  // ---- A shadowed name ----

  /** The opener of name `i`, then the closer of the name `m` that it opens. */
  function Closed(tags: seq<string>, i: nat, m: nat): string
    requires i < |tags| && m < |tags|
  {
    Form(tags[i], false) + Form(tags[m], true)
  }

  lemma ClosedToolFree(tags: seq<string>, i: nat, m: nat)
    requires i < |tags| && m < |tags| && ToolFree(Form(tags[i], false)) && Starts(Form(tags[i], false), Form(tags[m], false))
    ensures ToolFree(Closed(tags, i, m))
  {
    hide Starts, ToolFree, Form;
    var open := Form(tags[i], false);
    assert open[0..] == open;
    PartToolFree(open, 0, Form(tags[m], false));
    CloserToolFree(tags[m]);
    FormChars(tags[i], false, |open| - 1);
    JoinToolFree(open, Form(tags[m], true));
  }

  /**
   A name that is shadowed openly gives a text on which the one-shot parser closes a block of one name and
   some cut streams a group of another. When an even earlier name opens the text built here, that name is
   longer and shadowed as well, and takes over.
   */
  lemma {:induction false} ShadowDiffers(tags: seq<string>, i: nat, j: nat) returns (chunks: seq<string>)
    requires LowerCase(tags) && j < |tags| && Shadows(tags, i, j) && ToolFree(Form(tags[i], false))
    ensures !Consistent(tags, chunks)
    decreases i
  {
    hide *;
    var m := ShadowedOpener(tags, i, j);
    var text := Closed(tags, i, m);
    ClosedToolFree(tags, i, m);
    var first := ClosedOpener(tags, i, m);
    if first < m {
      TakesOver(tags, i, j, m, first);
      chunks := ShadowDiffers(tags, first, j);
    } else {
      chunks := CutsDiffer(tags, i, j, m);
    }
  }

  /** The name that the shadowed opener opens: before the shadowing one, and longer. */
  lemma ShadowedOpener(tags: seq<string>, i: nat, j: nat) returns (m: nat)
    requires LowerCase(tags) && j < |tags| && Shadows(tags, i, j)
    ensures m <= i < j && Starts(Form(tags[i], false), Form(tags[m], false)) && |tags[j]| < |tags[m]|
    ensures forall k :: 0 <= k < m ==> !Starts(Form(tags[i], false), Form(tags[k], false))
  {
    hide Starts, Form, Lower;
    var open := Form(tags[i], false);
    FormStarts(tags[i], false);
    m := OpenerIndex(tags, open);
    FormStarts(tags[i], false);
    CoverStarts(open, tags[j], tags[i], false);
    if |tags[m]| <= |tags[j]| { BothStart(open, tags[m], tags[j], false); }
  }

  lemma ClosedOpener(tags: seq<string>, i: nat, m: nat) returns (first: nat)
    requires i < |tags| && m < |tags| && Starts(Form(tags[i], false), Form(tags[m], false))
    ensures first <= m && Starts(Closed(tags, i, m), Form(tags[first], false))
    ensures FirstOpener(tags, Closed(tags, i, m)) == Some(tags[first])
    ensures forall k :: 0 <= k < first ==> !Starts(Closed(tags, i, m), Form(tags[k], false))
  {
    hide Starts, Form;
    StartsExtends(Form(tags[i], false), Form(tags[m], true), Form(tags[m], false));
    first := OpenerIndex(tags, Closed(tags, i, m));
  }

  lemma TakesOver(tags: seq<string>, i: nat, j: nat, m: nat, first: nat)
    requires LowerCase(tags) && j < |tags| && Shadows(tags, i, j) && first < m <= i
    requires forall k :: 0 <= k < m ==> !Starts(Form(tags[i], false), Form(tags[k], false))
    requires ToolFree(Closed(tags, i, m)) && Starts(Closed(tags, i, m), Form(tags[first], false))
    ensures Shadows(tags, first, j) && ToolFree(Form(tags[first], false))
  {
    hide Starts, Form, Lower, ToolFree;
    var open, text := Form(tags[i], false), Closed(tags, i, m);
    assert text[0..] == text;
    PartToolFree(text, 0, Form(tags[first], false));
    FormStarts(tags[i], false);
    if |tags[first]| <= |tags[i]| { ShorterStarts(open, Form(tags[m], true), tags[first], tags[i], false); }
    CoverStarts(open, tags[j], tags[i], false);
    StartsExtends(open, Form(tags[m], true), Form(tags[j], false));
    CoverLength(tags[j], tags[i]);
    BothStart(text, tags[j], tags[first], false);
  }

  lemma CoverLength(short: string, long: string)
    requires Covers(short, long)
    ensures |short| <= |long|
  {
  }

  /** The text up to the first closer of `m`, cut behind the opener of `j`. */
  lemma CutsDiffer(tags: seq<string>, i: nat, j: nat, m: nat) returns (chunks: seq<string>)
    requires LowerCase(tags) && m <= i < j < |tags| && Shadows(tags, i, j) && |tags[j]| < |tags[m]|
    requires Starts(Form(tags[i], false), Form(tags[m], false)) && ToolFree(Closed(tags, i, m))
    requires forall k :: 0 <= k < m ==> !Starts(Closed(tags, i, m), Form(tags[k], false))
    ensures !Consistent(tags, chunks)
  {
    hide *;
    var text := ClosedBlock(tags, i, m);
    var short := Form(tags[j], false);
    ShortBegins(tags, i, j, m, text);
    chunks := [short, text[|short|..]];
    TwoChunks(short, text);
    OpensShort(tags, i, j, chunks);
    BlockIsFirst(tags, text, m);
    SameNameCovers(tags[j]);
    DifferentFirst(tags, chunks, tags[j], tags[m]);
  }

  /** A text that is one block of name `m` for the one-shot parser. */
  lemma ClosedBlock(tags: seq<string>, i: nat, m: nat) returns (text: string)
    requires LowerCase(tags) && i < |tags| && m < |tags|
    requires Starts(Form(tags[i], false), Form(tags[m], false)) && ToolFree(Closed(tags, i, m))
    requires forall k :: 0 <= k < m ==> !Starts(Closed(tags, i, m), Form(tags[k], false))
    ensures text <= Closed(tags, i, m) && ToolFree(text) && OpenLen(tags[m]) <= |text|
    ensures FirstOpener(tags, text) == Some(tags[m])
    ensures exists c: nat ::
              NextForm(text, OpenLen(tags[m]), Form(tags[m], true)) == Some(c) && c + CloseLen(tags[m]) == |text|
  {
    hide Starts, Form, ToolFree, Lower, NoForm;
    var whole := Closed(tags, i, m);
    var inner, shut := OpenLen(tags[m]), Form(tags[m], true);
    BeginsWithBracket(Form(tags[i], false), tags[m], false);
    var c := FirstCloser(tags, i, m);
    text := whole[..c + |shut|];
    PrefixToolFree(whole, c + |shut|);
    NextFormCut(whole, inner, shut, c);
    StartsCut(Form(tags[i], false), whole, c + |shut|, Form(tags[m], false));
    assert text + whole[c + |shut|..] == whole;
    forall k | 0 <= k < m ensures !Starts(text, Form(tags[k], false)) {
      if Starts(text, Form(tags[k], false)) { StartsExtends(text, whole[c + |shut|..], Form(tags[k], false)); }
    }
    OpenerAt(tags, text, m);
  }

  lemma FirstCloser(tags: seq<string>, i: nat, m: nat) returns (c: nat)
    requires LowerCase(tags) && i < |tags| && m < |tags| && OpenLen(tags[m]) <= |Form(tags[i], false)|
    ensures OpenLen(tags[m]) <= c && c + CloseLen(tags[m]) <= |Closed(tags, i, m)|
    ensures NextForm(Closed(tags, i, m), OpenLen(tags[m]), Form(tags[m], true)) == Some(c)
  {
    hide Starts, Form, Lower, NextForm;
    var whole := Closed(tags, i, m);
    var at := |Form(tags[i], false)|;
    assert whole[at..] == Form(tags[m], true);
    FormStarts(tags[m], true);
    assert Starts(whole[at..], Form(tags[m], true));
    c := NextForm(whole, OpenLen(tags[m]), Form(tags[m], true)).value;
  }

  /** The first place of a form is the same in a text that is cut behind it. */
  lemma {:induction false} NextFormCut(text: string, from: nat, form: string, c: nat)
    requires from <= |text| && form != "" && NextForm(text, from, form) == Some(c)
    ensures from <= c && c + |form| <= |text| && NextForm(text[..c + |form|], from, form) == Some(c)
    decreases |text| - from
  {
    hide Starts;
    var cut := text[..c + |form|];
    if Starts(text[from..], form) {
      assert cut[from..] == text[from..][..|form|] && from == c;
      StartsExactly(text[from..], form);
    } else {
      NextFormCut(text, from + 1, form, c);
      assert cut[from..] + text[c + |form|..] == text[from..];
      if Starts(cut[from..], form) { StartsExtends(cut[from..], text[c + |form|..], form); }
    }
  }

  lemma StartsExactly(text: string, form: string)
    requires Starts(text, form)
    ensures Starts(text[..|form|], form)
  {
    assert text[..|form|][..|form|] == text[..|form|];
  }

  /** What begins a text and a longer one begins the longer one's prefixes that hold it. */
  lemma StartsCut(text: string, whole: string, n: nat, form: string)
    requires Starts(text, form) && text <= whole && |form| <= n <= |whole|
    ensures Starts(whole[..n], form)
  {
    assert whole[..n][..|form|] == text[..|form|];
  }

  /** The opener of the shadowing name begins the text. */
  lemma ShortBegins(tags: seq<string>, i: nat, j: nat, m: nat, text: string)
    requires LowerCase(tags) && j < |tags| && Shadows(tags, i, j) && m <= i && |tags[j]| < |tags[m]|
    requires text <= Closed(tags, i, m) && OpenLen(tags[m]) <= |text|
    ensures |Form(tags[j], false)| <= |text| && text[..|Form(tags[j], false)|] == Form(tags[j], false)
  {
    var short, open := Form(tags[j], false), Form(tags[i], false);
    CoversForms(tags[j], tags[i], false);
    assert short == open[..|short|] == Closed(tags, i, m)[..|short|] == text[..|short|];
  }

  lemma TwoChunks(short: string, text: string)
    requires |short| <= |text| && text[..|short|] == short
    ensures Concat([short, text[|short|..]]) == text
  {
    OneChunk(text[|short|..]);
    assert [short, text[|short|..]][1..] == [text[|short|..]];
    assert short + text[|short|..] == text;
  }

  /** Streaming the opener of the shadowing name by itself opens its group. */
  lemma OpensShort(tags: seq<string>, i: nat, j: nat, chunks: seq<string>)
    requires LowerCase(tags) && j < |tags| && Shadows(tags, i, j) && chunks != [] && chunks[0] == Form(tags[j], false)
    ensures var gs := GroupsOf(Run(tags, INITIAL, "", chunks)); gs != [] && gs[0].tag == tags[j]
  {
    hide Run, Merge, Pump, GroupsOf, Form, Starts, Lower, FirstOpener;
    FormStarts(tags[j], false);
    forall k | 0 <= k < j ensures !Starts(chunks[0], Form(tags[k], false)) {
      if Starts(chunks[0], Form(tags[k], false)) { PrefixOfForm(tags[k], tags[j]); }
    }
    OpenerAt(tags, chunks[0], j);
    assert "" + chunks[0] == chunks[0];
    PumpOpens(tags, chunks[0], tags[j]);
    RunFirst(tags, INITIAL, chunks);
    FirstGroup(Merge(Run(tags, INITIAL, "", chunks)), tags[j]);
    CollectMerged(Run(tags, INITIAL, "", chunks));
  }

  lemma {:induction false} FirstGroup(es: seq<Event>, tag: string)
    requires es != [] && es[0] == ReasoningStart(tag)
    ensures GroupsOf(es) != [] && GroupsOf(es)[0].tag == tag
    decreases |es|
  {
    if |es| == 1 {
      assert es[..0] == [];
    } else {
      FirstGroup(es[..|es| - 1], tag);
    }
  }

  /** The one-shot parser sees one closed block of name `m`. */
  lemma BlockIsFirst(tags: seq<string>, text: string, m: nat)
    requires m < |tags| && FirstOpener(tags, text) == Some(tags[m]) && OpenLen(tags[m]) <= |text|
    requires exists c: nat ::
               NextForm(text, OpenLen(tags[m]), Form(tags[m], true)) == Some(c) && c + CloseLen(tags[m]) == |text|
    ensures Unclosed(tags, text, 0).None?
    ensures var gs := BlockGroups(Parse(tags, text, 0).blocks); gs != [] && gs[0].tag == tags[m]
  {
    hide FirstOpener, NextForm, Form, Spans, Starts, Parse;
    var c: nat :| NextForm(text, OpenLen(tags[m]), Form(tags[m], true)) == Some(c) && c + CloseLen(tags[m]) == |text|;
    assert text[0..] == text;
    var open := Opener(0, tags[m]);
    OpensAtOnce(tags, text, tags[m]);
    BatchStep(tags, text, 0, open, c);
  }

  lemma OpensAtOnce(tags: seq<string>, text: string, tag: string)
    requires text != "" && FirstOpener(tags, text) == Some(tag)
    ensures NextOpener(tags, text, 0) == Some(Opener(0, tag))
  {
    hide FirstOpener;
    assert text[0..] == text;
  }

  lemma SameNameCovers(name: string)
    ensures Covers(name, name)
  {
  }

  lemma DifferentFirst(tags: seq<string>, chunks: seq<string>, streamed: string, parsed: string)
    requires var text := Concat(chunks); ToolFree(text) && Unclosed(tags, text, 0).None?
    requires var gs := GroupsOf(Run(tags, INITIAL, "", chunks)); gs != [] && gs[0].tag == streamed
    requires var gs := BlockGroups(Parse(tags, Concat(chunks), 0).blocks); gs != [] && gs[0].tag == parsed
    requires streamed != parsed
    ensures !Consistent(tags, chunks)
  {
    hide Run, Parse, Unclosed, ToolFree, GroupsOf, BlockGroups;
    NotConsistent(tags, chunks);
  }

  // ---- The exact rule ----

  /**
   For a prepared tag set: on all texts without tool-call tags and all cuts the parsers agree exactly when
   every block that opens also closes, if and only if no name is empty and none that can open is shadowed.
   */
  lemma AgreementExactly(tags: seq<string>)
    requires LowerCase(tags)
    ensures (forall chunks :: Consistent(tags, chunks)) <==> "" !in tags && !ShadowsOpenly(tags)
    ensures (forall t :: t in tags ==> ToolFree(Form(t, false))) ==> (ShadowsOpenly(tags) <==> ShadowIn(tags))
  {
    hide Run, Parse, Unclosed, Agrees, ToolFree, Form, Steady, OneMore, Shadows;
    if ShadowsOpenly(tags) {
      var i: nat, j: nat :| i < j < |tags| && Shadows(tags, i, j) && ToolFree(Form(tags[i], false));
      var chunks := ShadowDiffers(tags, i, j);
    } else if "" in tags {
      EmptyNameDiffers(tags);
    } else {
      forall chunks ensures Consistent(tags, chunks) {
        if ToolFree(Concat(chunks)) {
          ToolFreeSteady(tags, Concat(chunks));
          StreamingIsBatch(tags, chunks);
        }
      }
    }
  }
}
