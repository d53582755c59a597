/**
 Tag matching shared by the streaming and the one-shot reasoning parser
 (packages/core/src/reasoning-blocks.ts).

 A tag name is matched without regard to ASCII case; `Form` is the exact text `<tag>` or `</tag>`
 and `Starts` says that a text begins with a form, so that every later argument can speak of forms
 and prefixes instead of index arithmetic.
 */
module ReasoningTags {
  import opened Options

  const TOOL_CALL := "tool_call"

  const DEFAULT_TAGS := ["plan", "reasoning", "reflection", "thinking", "think", "scratchpad",
                         "inner_monologue", "execution", "solution", "explanation", "unit_test"]

  function LowerChar(c: char): char {
    if 'A' <= c <= 'Z' then (c as int + 32) as char else c
  }

  function Lower(s: string): (r: string)
    ensures |r| == |s|
    ensures forall i :: 0 <= i < |s| ==> r[i] == LowerChar(s[i])
  {
    seq(|s|, i requires 0 <= i < |s| => LowerChar(s[i]))
  }

  /** Every name is in lower case. */
  predicate LowerCase(tags: seq<string>) {
    forall i :: 0 <= i < |tags| ==> Lower(tags[i]) == tags[i]
  }

  /** `buildTagSet`: lower-cased names in first-insertion order, the default list when none is given. */
  function BuildTagSet(allowed: seq<string>): (tags: seq<string>) {
    LowerAll(if |allowed| > 0 then allowed else DEFAULT_TAGS, [])
  }

  function LowerAll(names: seq<string>, seen: seq<string>): seq<string> {
    if names == [] then seen
    else
      var name := Lower(names[0]);
      LowerAll(names[1..], if name in seen then seen else seen + [name])
  }

  predicate DistinctNames(tags: seq<string>) {
    forall i, j :: 0 <= i < j < |tags| ==> tags[i] != tags[j]
  }

  /** The prepared set: lower-case, without repetition, and with exactly the lower-cased names. */
  lemma {:induction false} LowerAllPrepares(names: seq<string>, seen: seq<string>)
    requires LowerCase(seen) && DistinctNames(seen)
    ensures var tags := LowerAll(names, seen);
            && LowerCase(tags) && DistinctNames(tags)
            && (forall t :: t in tags <==> t in seen || exists i :: 0 <= i < |names| && t == Lower(names[i]))
  {
    if names != [] {
      var name := Lower(names[0]);
      assert Lower(name) == name;
      var more := if name in seen then seen else seen + [name];
      LowerAllPrepares(names[1..], more);
      forall t ensures t in LowerAll(names, seen) <==> t in seen || exists i :: 0 <= i < |names| && t == Lower(names[i]) {
        if exists i :: 0 <= i < |names[1..]| && t == Lower(names[1..][i]) {
          var i :| 0 <= i < |names[1..]| && t == Lower(names[1..][i]);
          assert t == Lower(names[i + 1]);
        }
        if exists i :: 0 <= i < |names| && t == Lower(names[i]) {
          var i :| 0 <= i < |names| && t == Lower(names[i]);
          if i > 0 { assert t == Lower(names[1..][i - 1]); }
        }
      }
    }
  }

  /** Some name that lowers to the first stands in front of all that lower to the second. */
  predicate ComesBefore(names: seq<string>, first: string, second: string) {
    exists p :: 0 <= p < |names| && Lower(names[p]) == first && forall q :: 0 <= q <= p ==> Lower(names[q]) != second
  }

  /** The prepared set keeps the order of first occurrence. */
  lemma {:induction false} LowerAllInOrder(names: seq<string>, seen: seq<string>)
    requires DistinctNames(seen)
    ensures var tags := LowerAll(names, seen);
            && |seen| <= |tags| && tags[..|seen|] == seen
            && forall i, j :: 0 <= i < j < |tags| && |seen| <= j ==> i < |seen| || ComesBefore(names, tags[i], tags[j])
    decreases |names|
  {
    if names != [] {
      hide Lower, ComesBefore;
      var name := Lower(names[0]);
      var more := if name in seen then seen else seen + [name];
      var tags := LowerAll(names, seen);
      LowerAllInOrder(names[1..], more);
      LowerAllDistinct(names[1..], more);
      assert tags[..|more|] == more && tags == LowerAll(names[1..], more);
      assert tags[..|seen|] == seen;
      forall i, j | 0 <= i < j < |tags| && |seen| <= j ensures i < |seen| || ComesBefore(names, tags[i], tags[j]) {
        if |seen| <= i {
          if i < |more| {
            assert tags[i] == more[i] == name && tags[j] != name;
            FirstComesBefore(names, tags[j]);
          } else {
            assert name in more && tags[j] != name by { var k :| 0 <= k < |more| && more[k] == name; assert tags[k] == name; }
            LaterComesBefore(names, tags[i], tags[j]);
          }
        }
      }
    }
  }

  lemma {:induction false} LowerAllDistinct(names: seq<string>, seen: seq<string>)
    requires DistinctNames(seen)
    ensures DistinctNames(LowerAll(names, seen))
    decreases |names|
  {
    if names != [] {
      var name := Lower(names[0]);
      LowerAllDistinct(names[1..], if name in seen then seen else seen + [name]);
    }
  }

  lemma FirstComesBefore(names: seq<string>, second: string)
    requires names != [] && Lower(names[0]) != second
    ensures ComesBefore(names, Lower(names[0]), second)
  {
  }

  lemma LaterComesBefore(names: seq<string>, first: string, second: string)
    requires names != [] && ComesBefore(names[1..], first, second) && Lower(names[0]) != second
    ensures ComesBefore(names, first, second)
  {
    var rest := names[1..];
    var p :| 0 <= p < |rest| && Lower(rest[p]) == first && forall q :: 0 <= q <= p ==> Lower(rest[q]) != second;
    hide Lower;
    assert Lower(names[p + 1]) == first;
    forall q | 0 <= q <= p + 1 ensures Lower(names[q]) != second { if q > 0 { assert Lower(names[1..][q - 1]) != second; } }
  }

  function Form(tag: string, close: bool): (form: string)
    ensures |form| == |tag| + (if close then 3 else 2)
  {
    (if close then "</" else "<") + tag + ">"
  }

  predicate Starts(text: string, form: string) {
    |form| <= |text| && Lower(text[..|form|]) == form
  }

  /** `matchTag` / `matchTagAt`: the index after the `>` of `<tag>` or `</tag>` at position `i`. */
  function MatchTag(text: string, i: nat, tag: string, close: bool): (r: Option<nat>)
    ensures r.Some? ==> i < r.value <= |text|
  {
    if i >= |text| || text[i] != '<' then None
    else if close && (i + 1 >= |text| || text[i + 1] != '/') then None
    else
      var j := if close then i + 2 else i + 1;
      if j + |tag| > |text| then None
      else if Lower(text[j..j + |tag|]) != tag then None
      else if j + |tag| >= |text| || text[j + |tag|] != '>' then None
      else Some(j + |tag| + 1)
  }

  /** Character `k` of a form: the opening marker, then the tag, then `>`. */
  lemma FormChars(tag: string, close: bool, k: nat)
    requires k < |Form(tag, close)|
    ensures Form(tag, close)[k] ==
            if k == 0 then '<'
            else if close && k == 1 then '/'
            else if k == |Form(tag, close)| - 1 then '>'
            else tag[k - (if close then 2 else 1)]
  {
  }

  lemma MatchImpliesForm(text: string, i: nat, tag: string, close: bool)
    requires i <= |text| && MatchTag(text, i, tag, close).Some?
    ensures Starts(text[i..], Form(tag, close))
    ensures MatchTag(text, i, tag, close).value == i + |Form(tag, close)|
  {
    var form := Form(tag, close);
    var j := if close then i + 2 else i + 1;
    var mid := Lower(text[j..j + |tag|]);
    var low := Lower(text[i..][..|form|]);
    forall k | 0 <= k < |form| ensures low[k] == form[k] {
      FormChars(tag, close, k);
      assert low[k] == LowerChar(text[i + k]);
      if j - i <= k < |form| - 1 {
        assert mid[k - (j - i)] == LowerChar(text[i + k]);
      }
    }
    assert low == form;
  }

  lemma FormImpliesMatch(text: string, i: nat, tag: string, close: bool)
    requires i <= |text| && Starts(text[i..], Form(tag, close))
    ensures MatchTag(text, i, tag, close).Some?
  {
    var form := Form(tag, close);
    var j := if close then i + 2 else i + 1;
    var low := Lower(text[i..][..|form|]);
    forall k | 0 <= k < |form| ensures LowerChar(text[i + k]) == form[k] {
      assert low[k] == LowerChar(text[i + k]);
    }
    FormChars(tag, close, 0);
    FormChars(tag, close, |form| - 1);
    assert LowerChar(text[i + 0]) == '<' && LowerChar(text[i + (|form| - 1)]) == '>';
    if close { FormChars(tag, close, 1); assert LowerChar(text[i + 1]) == '/'; }
    var mid := Lower(text[j..j + |tag|]);
    forall k | 0 <= k < |tag| ensures mid[k] == tag[k] {
      FormChars(tag, close, k + (j - i));
      assert LowerChar(text[i + (k + (j - i))]) == form[k + (j - i)];
    }
    assert mid == tag;
  }

  /** The index scan of the source is exactly the form test on the rest of the text. */
  lemma MatchTagIsForm(text: string, i: nat, tag: string, close: bool)
    requires i <= |text|
    ensures MatchTag(text, i, tag, close) ==
            if Starts(text[i..], Form(tag, close)) then Some(i + |Form(tag, close)|) else None
  {
    if Starts(text[i..], Form(tag, close)) { FormImpliesMatch(text, i, tag, close); }
    if MatchTag(text, i, tag, close).Some? { MatchImpliesForm(text, i, tag, close); }
  }

  /** The first tag of the set, in insertion order, whose opener begins the text. */
  function FirstOpener(tags: seq<string>, text: string): (r: Option<string>)
    ensures r.Some? ==> r.value in tags && Starts(text, Form(r.value, false))
    ensures r.None? ==> forall t :: t in tags ==> !Starts(text, Form(t, false))
  {
    if tags == [] then None
    else if Starts(text, Form(tags[0], false)) then Some(tags[0])
    else FirstOpener(tags[1..], text)
  }

  predicate StrictPrefixOf(slice: string, form: string) {
    |slice| < |form| && slice == form[..|slice|]
  }

  predicate PartialOfTag(slice: string, tag: string) {
    StrictPrefixOf(slice, Form(tag, false)) || StrictPrefixOf(slice, Form(tag, true))
  }

  /** `couldBePartialTag`: could more input turn `text` into some known tag form? */
  predicate CouldBePartial(tags: seq<string>, text: string) {
    var slice := Lower(text);
    slice == "<" || slice == "</" || exists t :: t in tags + [TOOL_CALL] && PartialOfTag(slice, t)
  }

  /** Appending input never undoes a match. */
  lemma StartsExtends(text: string, more: string, form: string)
    requires Starts(text, form)
    ensures Starts(text + more, form)
  {
    assert (text + more)[..|form|] == text[..|form|];
  }

  /** A match that appears only after appending input was visible as a partial form before. */
  lemma StartsLater(text: string, more: string, form: string)
    requires Starts(text + more, form) && !Starts(text, form)
    ensures StrictPrefixOf(Lower(text), form)
  {
    var whole := (text + more)[..|form|];
    assert forall n: nat :: n <= |text| ==> (text + more)[..n] == text[..n];
    assert Lower(text) == form[..|text|] by {
      assert forall k :: 0 <= k < |text| ==> whole[k] == text[k];
    }
  }

  /** Distinct forms of names without `>` never begin the same text: `>` ends each and occurs once. */
  lemma FormsPrefixFree(text: string, a: string, aClose: bool, b: string, bClose: bool)
    requires '>' !in a && '>' !in b
    requires Starts(text, Form(a, aClose)) && Starts(text, Form(b, bClose))
    ensures Form(a, aClose) == Form(b, bClose)
  {
    FormNotShorter(text, a, aClose, b, bClose);
    FormNotShorter(text, b, bClose, a, aClose);
    assert Form(a, aClose) == Lower(text[..|Form(a, aClose)|]);
  }

  lemma FormNotShorter(text: string, a: string, aClose: bool, b: string, bClose: bool)
    requires '>' !in a && '>' !in b
    requires Starts(text, Form(a, aClose)) && Starts(text, Form(b, bClose))
    ensures |Form(b, bClose)| <= |Form(a, aClose)|
  {
    var last := |Form(a, aClose)| - 1;
    FormChars(a, aClose, last);
    if last < |Form(b, bClose)| { FormChars(b, bClose, last); }
  }

  lemma ToolCallIsLower()
    ensures Lower(TOOL_CALL) == TOOL_CALL
  {
    var low := Lower(TOOL_CALL);
    assert forall i :: 0 <= i < |TOOL_CALL| ==> low[i] == TOOL_CALL[i];
  }

  // ---- Names that shadow other names ----

  /** Does `<short>` begin the text `<long>`? */
  predicate Covers(short: string, long: string) { short + ">" <= long + ">" }

  /** All names that may open something, in the order in which they are tried outside a block. */
  function Names(tags: seq<string>): seq<string> { tags + [TOOL_CALL] }

  /**
   Name `j` begins the earlier name `i`, and is itself the first name to match its own form. Then the
   text `<name i>` opens something else at once than it does when it is cut behind `<name j>`.
   */
  predicate Shadows(names: seq<string>, i: nat, j: nat) {
    i < j < |names| && Covers(names[j], names[i]) && forall m :: 0 <= m < j ==> !Covers(names[m], names[j])
  }

  /** Does a name shadow another, the tool-call name included? */
  predicate Shadowed(tags: seq<string>) { ShadowIn(Names(tags)) }

  predicate ShadowIn(names: seq<string>) {
    exists i: nat, j: nat | i < j < |names| :: Shadows(names, i, j)
  }

  lemma CoversForms(short: string, long: string, close: bool)
    ensures Covers(short, long) <==> Form(short, close) <= Form(long, close)
  {
    var open := if close then "</" else "<";
    var a, b := Form(short, close), Form(long, close);
    assert a == open + (short + ">") && b == open + (long + ">");
    assert a[|open|..] == short + ">" && b[|open|..] == long + ">";
    if a <= b { assert (long + ">")[..|short| + 1] == b[..|a|][|open|..]; }
  }

  /** Of two forms that begin one text, the shorter begins the longer. */
  lemma BothStart(text: string, a: string, b: string, close: bool)
    requires Starts(text, Form(a, close)) && Starts(text, Form(b, close)) && |a| <= |b|
    ensures Covers(a, b)
  {
    CoversForms(a, b, close);
    var fa, fb := Form(a, close), Form(b, close);
    assert Lower(text[..|fb|])[..|fa|] == Lower(text[..|fa|]) by {
      assert text[..|fb|][..|fa|] == text[..|fa|];
    }
  }

  /** A name that begins a matching name matches as well. */
  lemma CoverStarts(text: string, a: string, b: string, close: bool)
    requires Starts(text, Form(b, close)) && Covers(a, b)
    ensures Starts(text, Form(a, close))
  {
    CoversForms(a, b, close);
    var fa, fb := Form(a, close), Form(b, close);
    assert Lower(text[..|fb|])[..|fa|] == Lower(text[..|fa|]) by {
      assert text[..|fb|][..|fa|] == text[..|fa|];
    }
  }

  /** The position of the name that opens a text. */
  lemma {:induction false} OpenerIndex(names: seq<string>, text: string) returns (j: nat)
    requires FirstOpener(names, text).Some?
    ensures j < |names| && FirstOpener(names, text) == Some(names[j]) && Starts(text, Form(names[j], false))
    ensures forall m :: 0 <= m < j ==> !Starts(text, Form(names[m], false))
  {
    if Starts(text, Form(names[0], false)) {
      j := 0;
    } else {
      var k := OpenerIndex(names[1..], text);
      j := k + 1;
    }
  }

  /** A name that matches, with none before it matching, is the opener. */
  lemma {:induction false} OpenerAt(names: seq<string>, text: string, j: nat)
    requires j < |names| && Starts(text, Form(names[j], false))
    requires forall m :: 0 <= m < j ==> !Starts(text, Form(names[m], false))
    ensures FirstOpener(names, text) == Some(names[j])
  {
    if j > 0 { OpenerAt(names[1..], text, j - 1); }
  }

  /** Where no shadowed name opens, the opener found first does not depend on later input. */
  lemma OpenerStable(names: seq<string>, text: string, more: string)
    requires FirstOpener(names, text).Some?
    requires forall i: nat, j: nat | i < j < |names| && Shadows(names, i, j) :: !Starts(text + more, Form(names[i], false))
    ensures FirstOpener(names, text + more) == FirstOpener(names, text)
  {
    var j := OpenerIndex(names, text);
    StartsExtends(text, more, Form(names[j], false));
    var i := OpenerIndex(names, text + more);
    if i < j {
      assert !Starts(text, Form(names[i], false));
      if |names[i]| < |names[j]| { ShorterStarts(text, more, names[i], names[j], false); }
      BothStart(text + more, names[j], names[i], false);
      forall m | 0 <= m < j ensures !Covers(names[m], names[j]) {
        if Covers(names[m], names[j]) { CoverStarts(text, names[m], names[j], false); }
      }
      assert Shadows(names, i, j);
    }
  }

  lemma ShorterStarts(text: string, more: string, a: string, b: string, close: bool)
    requires Starts(text, Form(b, close)) && Starts(text + more, Form(a, close)) && |a| <= |b|
    ensures Starts(text, Form(a, close))
  {
    assert (text + more)[..|Form(a, close)|] == text[..|Form(a, close)|];
  }

  /** A name without `>` is covered only by itself. */
  lemma CoversPlain(a: string, b: string)
    requires '>' !in b
    ensures Covers(a, b) <==> a == b
  {
    if Covers(a, b) {
      var fa, fb := a + ">", b + ">";
      assert fb[..|fa|] == fa && fa[|a|] == '>';
      assert fb[|a|] == '>' && forall k :: 0 <= k < |b| ==> fb[k] == b[k] != '>';
      assert |a| == |b| && fa == fb;
      assert a == fa[..|a|] == fb[..|b|] == b;
    }
  }

  /** Names without `>`, the default ones among them, never shadow each other. */
  lemma PlainNamesUnshadowed(tags: seq<string>)
    requires forall t :: t in tags ==> '>' !in t
    ensures !Shadowed(tags)
  {
    var names := Names(tags);
    forall i: nat, j: nat | i < j < |names| ensures !Shadows(names, i, j) {
      assert names[i] in tags && '>' !in names[i];
      CoversPlain(names[j], names[i]);
    }
  }

  /** A lower-case form begins with itself. */
  lemma FormStarts(tag: string, close: bool)
    requires Lower(tag) == tag
    ensures Starts(Form(tag, close), Form(tag, close))
  {
    var form := Form(tag, close);
    forall k | 0 <= k < |form| ensures LowerChar(form[k]) == form[k] {
      FormChars(tag, close, k);
      assert forall j :: 0 <= j < |tag| ==> Lower(tag)[j] == LowerChar(tag[j]);
    }
    assert form[..|form|] == form;
    assert Lower(form) == form;
  }

  /** A tag that some text opens, and whose form the tool-call form begins, is shadowed by it. */
  lemma ToolCallCovered(tags: seq<string>, tag: string) returns (i: nat, j: nat)
    requires LowerCase(tags) && tag in tags && FirstOpener(tags, Form(tag, false)) == Some(tag)
    requires Covers(TOOL_CALL, tag) && tag != TOOL_CALL
    ensures i < j < |Names(tags)| && Shadows(Names(tags), i, j)
    ensures Names(tags)[i] == tag && Names(tags)[j] == TOOL_CALL
  {
    var names := Names(tags);
    i := OpenerIndex(tags, Form(tag, false));
    j := 0;
    assert names[|tags|] == TOOL_CALL;
    while names[j] != TOOL_CALL
      invariant 0 <= j <= |tags| && forall m :: 0 <= m < j ==> names[m] != TOOL_CALL
      decreases |tags| - j
    {
      j := j + 1;
    }
    FormStarts(tag, false);
    if j < i { CoverStarts(Form(tag, false), names[j], tag, false); }
    forall m | 0 <= m < j ensures !Covers(names[m], TOOL_CALL) { CoversPlain(names[m], TOOL_CALL); }
    assert names[i] == tag;
    assert Shadows(names, i, j);
  }

  /** The tool-call opener and a closing form differ in their second character. */
  lemma ToolOpenerIsNoCloser(text: string, tag: string)
    requires Starts(text, Form(TOOL_CALL, false))
    ensures !Starts(text, Form(tag, true))
  {
    assert Lower(text[..|Form(TOOL_CALL, false)|])[1] == LowerChar(text[1]) == 't';
    if Starts(text, Form(tag, true)) {
      assert Lower(text[..|Form(tag, true)|])[1] == LowerChar(text[1]);
      FormChars(tag, true, 1);
    }
  }
}
