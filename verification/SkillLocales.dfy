/**
 Locale blocks in skill instructions (packages/core/src/skill-manifest.ts:311-332): the text between
 `<!-- i18n:xx -->` and the nearest `<!-- /i18n:xx -->` is taken out of the default instructions.
 */
module SkillLocales {
  import opened Options
  import opened Text

  /** The first position from `i` on that is not white space. */
  function SkipSpaces(s: string, i: nat): (r: nat)
    requires i <= |s|
    ensures i <= r <= |s|
    decreases |s| - i
  {
    if i < |s| && IsSpace(s[i]) then SkipSpaces(s, i + 1) else i
  }

  /** Where a marker comment with this name ends, if one starts at `i`. */
  function MarkerEnd(s: string, i: nat, name: string): (r: Option<nat>)
    ensures r.Some? ==> i < r.value <= |s|
  {
    if !MatchesAt(s, "<!--", i) then None
    else
      var a := SkipSpaces(s, i + 4);
      if !MatchesAt(s, name, a) then None
      else
        var b := SkipSpaces(s, a + |name|);
        if MatchesAt(s, "-->", b) then Some(b + 3) else None
  }

  /** The nearest position from `j` on where a marker with this name starts. */
  function NextMarker(s: string, j: nat, name: string): (r: Option<nat>)
    ensures r.Some? ==> j <= r.value && MarkerEnd(s, r.value, name).Some?
    decreases |s| - j
  {
    if MarkerEnd(s, j, name).Some? then Some(j)
    else if j < |s| then NextMarker(s, j + 1, name)
    else None
  }

  datatype Span = Span(bodyStart: nat, bodyEnd: nat, end: nat)

  /** The locale block that starts at `i`, if there is one. */
  function BlockAt(s: string, i: nat, locale: string): (r: Option<Span>)
    ensures r.Some? ==> i < r.value.bodyStart <= r.value.bodyEnd < r.value.end <= |s|
  {
    var open := MarkerEnd(s, i, "i18n:" + locale);
    if open.None? then None
    else
      var close := NextMarker(s, open.value, "/i18n:" + locale);
      if close.None? then None
      else Some(Span(open.value, close.value, MarkerEnd(s, close.value, "/i18n:" + locale).value))
  }

  datatype Extracted = Extracted(kept: string, bodies: seq<string>)

  /** Taking the blocks of one locale out of `s[i..]`. */
  function Extract(s: string, i: nat, locale: string): Extracted
    requires i <= |s|
    decreases |s| - i
  {
    if i == |s| then Extracted("", [])
    else
      var block := BlockAt(s, i, locale);
      if block.Some? then
        var rest := Extract(s, block.value.end, locale);
        Extracted(rest.kept, [Trim(s[block.value.bodyStart..block.value.bodyEnd])] + rest.bodies)
      else
        var rest := Extract(s, i + 1, locale);
        Extracted([s[i]] + rest.kept, rest.bodies)
  }

  /** `parts.join('\n\n')` */
  function Paragraphs(bodies: seq<string>): string {
    if bodies == [] then "" else if |bodies| == 1 then bodies[0] else bodies[0] + "\n\n" + Paragraphs(bodies[1..])
  }

  datatype Localized = Localized(text: string, en: Option<string>, ko: Option<string>)

  function OneLocale(bodies: seq<string>): Option<string> {
    if bodies == [] then None else Some(Paragraphs(bodies))
  }

  /** `extractLocalizedInstructions`: first English, then Korean. */
  function ExtractLocalized(instructions: string): Localized {
    var en := Extract(instructions, 0, "en");
    var text := Trim(en.kept);
    var ko := Extract(text, 0, "ko");
    Localized(Trim(ko.kept), OneLocale(en.bodies), OneLocale(ko.bodies))
  }

  predicate NoBlocks(s: string, locale: string) {
    forall i: nat :: i < |s| ==> BlockAt(s, i, locale).None?
  }

  lemma {:induction false} ExtractNothing(s: string, i: nat, locale: string)
    requires i <= |s|
    ensures Extract(s, i, locale).bodies == [] <==> forall k :: i <= k < |s| ==> BlockAt(s, k, locale).None?
    ensures Extract(s, i, locale).bodies == [] ==> Extract(s, i, locale).kept == s[i..]
    decreases |s| - i
  {
    hide BlockAt;
    if i < |s| && BlockAt(s, i, locale).None? { ExtractNothing(s, i + 1, locale); }
  }

  /** Trimmed instructions come back whole, with no localized text, exactly when they hold no locale block. */
  lemma WholeWithoutBlocks(instructions: string)
    requires Trimmed(instructions)
    ensures ExtractLocalized(instructions) == Localized(instructions, None, None)
            <==> NoBlocks(instructions, "en") && NoBlocks(instructions, "ko")
  {
    hide BlockAt, Extract, Trim;
    ExtractNothing(instructions, 0, "en");
    TrimTrimmed(instructions);
    ExtractNothing(instructions, 0, "ko");
    assert instructions[0..] == instructions;
  }
}
