/**
 The text level of a SKILL.md file (packages/core/src/skill-manifest.ts:222-280, 311-332): the front
 matter between its `---` lines, the instructions below it, and the locale blocks inside them.

 `PrintedReadsBack` lifts the printer/parser law of `SkillYaml` from lines to characters: no value in
 a clean tree can end the front matter early or run into the instructions.
 */
module SkillFrontMatter {
  import opened Options
  import opened Text
  import opened SkillYaml

  datatype FrontMatter = FrontMatter(yaml: string, rest: string)

  /** The text between the leading `---` and the next `---`, and the text after that. */
  function SplitFrontMatter(content: string): Option<FrontMatter> {
    var t := Trim(content);
    if !StartsWith(t, "---") then None
    else
      var end := IndexOf(t, "---", 3);
      if end == -1 then None else Some(FrontMatter(Trim(t[3..end]), Trim(t[end + 3..])))
  }

  /** A file with the given front-matter lines. */
  function FileText(lines: seq<string>, instructions: string): string {
    Join(["---"] + lines + ["---", "", instructions], '\n')
  }

  // ---- Text that stays on its line ----

  predicate NoDashes(s: string) {
    forall i: nat :: i + 2 < |s| ==> !(s[i] == '-' && s[i + 1] == '-' && s[i + 2] == '-')
  }

  /** Without a line break or a `---`. */
  predicate OneLine(s: string) {
    NoDashes(s) && forall i :: 0 <= i < |s| ==> s[i] != '\n'
  }

  predicate OneLineShown(shown: Shown) {
    match shown
    case Scalar(text) => OneLine(text)
    case Items(items) => forall i :: 0 <= i < |items| ==> OneLine(items[i])
    case Nest(fields) => OneLineFields(fields)
  }

  predicate OneLineFields(fields: seq<Field>) {
    fields == [] || (OneLine(fields[0].key) && OneLineShown(fields[0].shown) && OneLineFields(fields[1..]))
  }

  predicate OneLines(lines: seq<string>) {
    forall i :: 0 <= i < |lines| ==> OneLine(lines[i])
  }

  lemma NoDashesAcross(a: string, c: char, b: string)
    requires NoDashes(a) && NoDashes(b) && c != '-'
    ensures NoDashes(a + [c] + b)
  {
    var s := a + [c] + b;
    forall i: nat | i + 2 < |s| ensures !(s[i] == '-' && s[i + 1] == '-' && s[i + 2] == '-') {
      if i + 2 < |a| {
        assert s[i] == a[i] && s[i + 1] == a[i + 1] && s[i + 2] == a[i + 2];
      } else if i > |a| {
        var k := i - |a| - 1;
        assert s[i] == b[k] && s[i + 1] == b[k + 1] && s[i + 2] == b[k + 2];
      } else {
        assert s[|a|] == c;
      }
    }
  }

  predicate Spaces(pad: string) {
    forall i :: 0 <= i < |pad| ==> pad[i] == ' '
  }

  lemma PaddedOneLine(pad: string, s: string)
    requires Spaces(pad) && OneLine(s)
    ensures OneLine(pad + s)
  {
    if pad == "" {
      assert pad + s == s;
    } else {
      var front := pad[..|pad| - 1];
      NoDashesAcross(front, ' ', s);
      assert pad + s == front + [' '] + s;
    }
  }

  lemma KeyTextOneLine(key: string, shown: Shown)
    requires OneLine(key) && OneLineShown(shown)
    ensures OneLine(KeyText(key, shown))
  {
    var after := if shown.Scalar? then " " + shown.text else "";
    if shown.Scalar? { PaddedOneLine(" ", shown.text); }
    NoDashesAcross(key, ':', after);
    assert KeyText(key, shown) == key + [':'] + after;
  }

  lemma {:induction false} DashedOneLines(pad: string, items: seq<string>)
    requires Spaces(pad) && forall i :: 0 <= i < |items| ==> OneLine(items[i])
    ensures OneLines(Dashed(pad, items))
  {
    if items != [] {
      DashedOneLines(pad, items[1..]);
      PaddedOneLine(pad, "-");
      NoDashesAcross(pad + "-", ' ', items[0]);
      assert pad + "- " + items[0] == (pad + "-") + [' '] + items[0];
    }
  }

  lemma {:induction false} FieldOneLines(pad: string, fields: seq<Field>)
    requires Spaces(pad) && OneLineFields(fields)
    ensures OneLines(FieldLines(pad, fields))
    decreases fields
  {
    hide OneLine;
    if fields != [] {
      var f := fields[0];
      KeyTextOneLine(f.key, f.shown);
      PaddedOneLine(pad, KeyText(f.key, f.shown));
      assert Spaces(pad + "  ");
      BelowOneLines(pad + "  ", f.shown);
      FieldOneLines(pad, fields[1..]);
    }
  }

  lemma {:induction false} BelowOneLines(pad: string, shown: Shown)
    requires Spaces(pad) && OneLineShown(shown)
    ensures OneLines(Below(pad, shown))
    decreases shown
  {
    hide OneLine;
    match shown
    case Scalar(_) =>
    case Items(items) => DashedOneLines(pad, items);
    case Nest(fields) => FieldOneLines(pad, fields);
  }

  lemma {:induction false} JoinedNoDashes(lines: seq<string>)
    requires OneLines(lines)
    ensures NoDashes(Join(lines, '\n'))
  {
    if |lines| > 1 {
      JoinedNoDashes(lines[1..]);
      NoDashesAcross(lines[0], '\n', Join(lines[1..], '\n'));
    } else if |lines| == 1 {
      assert OneLine(lines[0]);
    }
  }

  // ---- The end of the front matter ----

  /** Reading stops at the printed closing line, wherever the values contain dashes. */
  lemma ClosingLine(body: string, after: string)
    requires NoDashes(body) && (after == "" || after[0] == '\n')
    ensures var t := "---\n" + body + "\n---" + after;
            && StartsWith(t, "---") && IndexOf(t, "---", 3) == 5 + |body|
            && t[3..5 + |body|] == "\n" + body + "\n" && t[5 + |body| + 3..] == after
  {
    var t := "---\n" + body + "\n---" + after;
    var end := 5 + |body|;
    assert t[..3] == "---" && t[3..end] == "\n" + body + "\n" && t[end..end + 3] == "---" && t[end + 3..] == after;
    NoDashesAcross("", '\n', body);
    NoDashesAcross("" + ['\n'] + body, '\n', "");
    var inner := "" + ['\n'] + body + ['\n'] + "";
    assert inner == t[3..end];
    forall i: nat | 3 <= i < end ensures !MatchesAt(t, "---", i) {
      if i + 3 <= end {
        var k := i - 3;
        assert t[i] == inner[k] && t[i + 1] == inner[k + 1] && t[i + 2] == inner[k + 2];
        ThreeDashes(t, i);
      } else {
        assert t[end - 1] == inner[|inner| - 1] == '\n';
        ThreeDashes(t, i);
      }
    }
    IndexOfFirst(t, "---", 3, end);
  }

  lemma ThreeDashes(t: string, i: nat)
    ensures MatchesAt(t, "---", i) ==> i + 2 < |t| && t[i] == t[i + 1] == t[i + 2] == '-'
  {
    if MatchesAt(t, "---", i) {
      var w := t[i..i + 3];
      assert w[0] == t[i] && w[1] == t[i + 1] && w[2] == t[i + 2];
    }
  }

  /** A body with trailing blanks, between the `---` lines. */
  lemma SplitPrinted(body: string, pad: string, instructions: string)
    requires Trimmed(body) && body != "" && AllSpace(pad) && NoDashes(body + pad) && Trimmed(instructions)
    ensures SplitFrontMatter("---\n" + (body + pad) + "\n---\n\n" + instructions)
         == Some(FrontMatter(body, instructions))
  {
    hide Trim, IndexOf, NoDashes, AllSpace, Trimmed, MatchesAt;
    TrimFile(body + pad, instructions);
    ClosingLine(body + pad, After(instructions));
    TrimBody(body, pad);
    TrimAfter(instructions);
  }

  /** What is left after the closing line once the file is trimmed. */
  function After(instructions: string): (r: string)
    ensures r == "" || r[0] == '\n'
  {
    if instructions == "" then "" else "\n\n" + instructions
  }

  lemma TrimFile(body: string, instructions: string)
    requires Trimmed(instructions)
    ensures Trim("---\n" + body + "\n---\n\n" + instructions) == "---\n" + body + "\n---" + After(instructions)
  {
    var t := "---\n" + body + "\n---" + After(instructions);
    var tail := if instructions == "" then "\n\n" else "";
    assert "---\n" + body + "\n---\n\n" + instructions == "" + t + tail;
    assert t[0] == '-';
    assert t[|t| - 1] == if instructions == "" then '-' else instructions[|instructions| - 1];
    TrimPadded("", t, tail);
  }

  lemma TrimBody(body: string, pad: string)
    requires Trimmed(body) && AllSpace(pad)
    ensures Trim("\n" + (body + pad) + "\n") == body
  {
    assert "\n" + body + (pad + "\n") == "\n" + (body + pad) + "\n";
    TrimPadded("\n", body, pad + "\n");
  }

  lemma TrimAfter(instructions: string)
    requires Trimmed(instructions)
    ensures Trim(After(instructions)) == instructions
  {
    if instructions != "" {
      assert "\n\n" + instructions + "" == After(instructions);
      TrimPadded("\n\n", instructions, "");
    }
  }

  // ---- The last line ----

  /** The lines without the white space at the very end. */
  function Tidied(lines: seq<string>): seq<string>
    requires lines != []
  {
    lines[..|lines| - 1] + [TrimEnd(lines[|lines| - 1])]
  }

  /** Do two lists of lines differ only by blanks at the very end, and does the second end without one? */
  predicate SameButBlank(lines: seq<string>, tidy: seq<string>, blank: string) {
    && |lines| == |tidy| > 0 && AllSpace(blank)
    && lines[..|lines| - 1] == tidy[..|lines| - 1]
    && var last := tidy[|tidy| - 1];
       last != "" && !IsSpace(last[|last| - 1]) && lines[|lines| - 1] == last + blank
  }

  /** Taking it off changes nothing that the reader looks at. */
  lemma TidiedReads(lines: seq<string>) returns (blank: string)
    requires lines != [] && Trim(lines[|lines| - 1]) != ""
    ensures SameLines(lines, Tidied(lines)) && SameButBlank(lines, Tidied(lines), blank)
  {
    hide Trim, TrimEnd, Indent, AllSpace, IsSpace;
    blank := EndTrimmed(lines[|lines| - 1]);
  }

  lemma EndTrimmed(line: string) returns (blank: string)
    requires Trim(line) != ""
    ensures line == TrimEnd(line) + blank && AllSpace(blank) && SameLine(line, TrimEnd(line))
    ensures TrimEnd(line) != "" && !IsSpace(TrimEnd(line)[|TrimEnd(line)| - 1])
  {
    var before, core, after := Pieces(line);
    blank := after;
    assert line == (before + core) + after;
    TrimEndPadded(before + core, after);
    SameCore(before, core, after);
  }

  lemma SameCore(before: string, core: string, after: string)
    requires AllSpace(before) && AllSpace(after) && Trimmed(core) && core != ""
    ensures SameLine(before + core + after, before + core)
  {
    assert before + core + after == before + (core + after) && before + core + "" == before + core;
    TrimStartPadded(before, core + after);
    TrimStartPadded(before, core);
    TrimPadded(before, core, after);
    TrimPadded(before, core, "");
    hide Trim, TrimStart, AllSpace, IsSpace;
  }

  lemma {:induction false} JoinSameButBlank(lines: seq<string>, tidy: seq<string>, blank: string)
    requires SameButBlank(lines, tidy, blank)
    ensures Join(lines, '\n') == Join(tidy, '\n') + blank
    ensures var s := Join(tidy, '\n'); s != "" && !IsSpace(s[|s| - 1])
  {
    if |lines| > 1 {
      assert lines[0] == lines[..|lines| - 1][0] == tidy[..|lines| - 1][0] == tidy[0];
      assert lines[1..][..|lines| - 2] == lines[..|lines| - 1][1..];
      assert tidy[1..][..|lines| - 2] == tidy[..|lines| - 1][1..];
      JoinSameButBlank(lines[1..], tidy[1..], blank);
      hide SameButBlank;
      var a, b := Join(lines[1..], '\n'), Join(tidy[1..], '\n');
      assert lines[0] + ['\n'] + (b + blank) == (lines[0] + ['\n'] + b) + blank;
    }
  }

  // ---- Printing and reading a whole file ----

  lemma FileTextIs(lines: seq<string>, instructions: string)
    requires lines != []
    ensures FileText(lines, instructions) == "---\n" + Join(lines, '\n') + "\n---\n\n" + instructions
  {
    var closing := ["---", "", instructions];
    JoinConcat(["---"] + lines, closing, '\n');
    JoinConcat(["---"], lines, '\n');
    ClosingText(instructions);
    Glue(Join(lines, '\n'), instructions);
  }

  lemma ClosingText(instructions: string)
    ensures Join(["---", "", instructions], '\n') == "---\n\n" + instructions
  {
    JoinConcat(["---", ""], [instructions], '\n');
    JoinConcat(["---"], [""], '\n');
    assert ["---"] + [""] == ["---", ""] && ["---", ""] + [instructions] == ["---", "", instructions];
    hide Join;
  }

  lemma Glue(body: string, instructions: string)
    ensures ("---" + ['\n'] + body) + ['\n'] + ("---\n\n" + instructions) == "---\n" + body + "\n---\n\n" + instructions
  {
    assert "---" + ['\n'] == "---\n" && ['\n'] + "---\n\n" == "\n---\n\n";
  }

  lemma BodyStartsSolid(fields: seq<Field>)
    requires fields != [] && KeyedFields(fields)
    ensures var s := Join(FieldLines("", fields), '\n'); s != "" && !IsSpace(s[0])
  {
    var lines := FieldLines("", fields);
    assert lines[0] == "" + KeyText(fields[0].key, fields[0].shown);
    assert Join(lines, '\n')[0] == fields[0].key[0];
  }

  /**
   For every tree with clean keys and one-line texts, trimmed or not, and all trimmed instructions, the printed
   file is read back field by field, with the same instructions.
   */
  lemma PrintedReads(fields: seq<Field>, instructions: string)
    requires fields != [] && KeyedFields(fields) && OneLineFields(fields) && Trimmed(instructions)
    ensures var read := SplitFrontMatter(FileText(FieldLines("", fields), instructions));
            && read.Some? && read.value.rest == instructions
            && Read(Split(read.value.yaml, '\n'), 0, true, map[]) == ReadValues("", fields, map[])
  {
    hide Read, FieldLines, Join, Split, NoDashes, KeyedFields, OneLineFields, ReadValues, SplitFrontMatter;
    hide FileText, Trim, Indent;
    var lines := FieldLines("", fields);
    FieldOneLines("", fields);
    JoinedNoDashes(lines);
    FieldsFrom("", fields);
    assert !Skipped(lines[|lines| - 1], true);
    var blank := TidiedReads(lines);
    var tidy := Tidied(lines);
    TidiedOneLines(lines);
    JoinSameButBlank(lines, tidy, blank);
    BodyStartsSolid(fields);
    FileTextIs(lines, instructions);
    SplitPrinted(Join(tidy, '\n'), blank, instructions);
    OneLinesSplit(tidy);
    ReadSame(lines, tidy, 0, true, map[]);
    ReadRaw("", fields, true, map[]);
  }

  lemma TidiedOneLines(lines: seq<string>)
    requires lines != [] && OneLines(lines)
    ensures OneLines(Tidied(lines))
  {
    var last := lines[|lines| - 1];
    assert OneLine(last);
    EndPiece(last);
    PartOneLine(last, 0, |TrimEnd(last)|);
    hide OneLine, TrimEnd;
  }

  lemma {:induction false} EndPiece(s: string)
    ensures TrimEnd(s) == s[0..|TrimEnd(s)|]
  {
    if s != "" && IsSpace(s[|s| - 1]) {
      EndPiece(s[..|s| - 1]);
    }
  }

  lemma PartOneLine(s: string, a: nat, b: nat)
    requires a <= b <= |s|
    ensures NoDashes(s) ==> NoDashes(s[a..b])
    ensures OneLine(s) ==> OneLine(s[a..b])
  {
    var t := s[a..b];
    assert forall i :: 0 <= i < |t| ==> t[i] == s[a + i];
    if NoDashes(s) {
      forall i: nat | i + 2 < |t| ensures !(t[i] == '-' && t[i + 1] == '-' && t[i + 2] == '-') {
        assert t[i] == s[a + i] && t[i + 1] == s[(a + i) + 1] && t[i + 2] == s[(a + i) + 2];
      }
    }
  }

  /**
   For every tree of clean one-line fields and all trimmed instructions, the printed file is read back
   as the values of the tree and the same instructions.
   */
  lemma PrintedReadsBack(fields: seq<Field>, instructions: string)
    requires fields != [] && CleanFields(fields) && OneLineFields(fields) && Trimmed(instructions)
    ensures var read := SplitFrontMatter(FileText(FieldLines("", fields), instructions));
            && read.Some? && read.value.rest == instructions
            && Read(Split(read.value.yaml, '\n'), 0, true, map[]) == Values(fields, map[])
  {
    hide Read, FieldLines, Join, Split, NoDashes, CleanFields, KeyedFields, OneLineFields, Values, ReadValues;
    hide SplitFrontMatter, FileText;
    CleanIsKeyed(fields);
    PrintedReads(fields, instructions);
    ReadValuesClean("", fields, map[]);
  }

  lemma OneLinesSplit(lines: seq<string>)
    requires lines != [] && OneLines(lines)
    ensures Split(Join(lines, '\n'), '\n') == lines
  {
    forall i | 0 <= i < |lines| ensures '\n' !in lines[i] { assert OneLine(lines[i]); }
    SplitJoin(lines, '\n');
  }

  // ---- Nothing that is read holds a line break or a `---` ----

  ghost predicate OneLineYaml(y: Yaml) {
    match y
    case Str(text) => OneLine(text)
    case Arr(items) => OneLines(items)
    case Obj(fields) => forall key :: key in fields ==> OneLineYaml(fields[key])
    case _ => true
  }

  ghost predicate OneLineMap(found: map<string, Yaml>) {
    forall key :: key in found ==> OneLineYaml(found[key])
  }

  lemma TrimOneLine(s: string)
    requires OneLine(s)
    ensures OneLine(Trim(s))
  {
    var before, core, after := Pieces(s);
    assert s[|before|..|before| + |core|] == core;
    PartOneLine(s, |before|, |before| + |core|);
  }

  lemma {:induction false} FlowOneLines(parts: seq<string>)
    requires OneLines(parts)
    ensures OneLines(FlowItems(parts))
  {
    hide OneLine, Trim;
    if parts != [] {
      assert OneLine(parts[0]);
      FlowOneLines(parts[1..]);
      TrimOneLine(parts[0]);
      InsideOneLine(Trim(parts[0]));
    }
  }

  lemma InsideOneLine(s: string)
    requires OneLine(s)
    ensures OneLine(Inside(s))
  {
    if |s| >= 2 { PartOneLine(s, 1, |s| - 1); }
  }

  lemma PartsOneLine(s: string, sep: char)
    requires OneLine(s)
    ensures OneLines(Split(s, sep))
  {
    forall i | 0 <= i < |Split(s, sep)| ensures OneLine(Split(s, sep)[i]) {
      var a, b := SplitPiece(s, sep, i);
      PartOneLine(s, a, b);
    }
  }

  lemma CoerceOneLine(value: string)
    requires OneLine(value)
    ensures OneLineYaml(CoerceScalar(value))
  {
    hide OneLine, Trim, Split, FlowItems;
    InsideOneLine(value);
    TrimOneLine(Inside(value));
    PartsOneLine(Trim(Inside(value)), ',');
    FlowOneLines(Split(Trim(Inside(value)), ','));
  }

  lemma {:induction false} DashOneLines(block: seq<string>)
    requires OneLines(block)
    ensures OneLines(DashItems(block))
  {
    hide OneLine, Trim;
    if block != [] {
      assert OneLine(block[0]);
      DashOneLines(block[1..]);
      if IsDash(block[0]) {
        TrimOneLine(block[0]);
        PartOneLine(Trim(block[0]), 2, |Trim(block[0])|);
        TrimOneLine(Trim(block[0])[2..]);
      }
    }
  }

  lemma {:induction false} KeptOneLines(lines: seq<string>, top: bool)
    requires OneLines(lines)
    ensures OneLines(Kept(lines, top))
  {
    hide OneLine, Skipped;
    if lines != [] {
      assert OneLine(lines[0]);
      KeptOneLines(lines[1..], top);
    }
  }

  lemma KeyOneLine(line: string, base: int)
    requires OneLine(line) && ReadKey(line, base).Some?
    ensures OneLine(ReadKey(line, base).value.value)
  {
    hide OneLine, Trim, IndexOf, Indent;
    var t := Trim(line);
    var colon := IndexOf(t, ":", 0);
    TrimOneLine(line);
    PartOneLine(t, colon + 1, |t|);
    TrimOneLine(t[colon + 1..]);
  }

  lemma {:induction false} ReadOneLines(lines: seq<string>, base: int, top: bool, found: map<string, Yaml>)
    requires OneLines(lines) && OneLineMap(found)
    ensures OneLineMap(Read(lines, base, top, found))
    decreases |lines|, 0
  {
    hide OneLine, ReadKey, BlockLength, Kept, BlockValue, CoerceScalar;
    if lines != [] {
      assert OneLine(lines[0]);
      var line := ReadKey(lines[0], base);
      if line.None? {
        ReadOneLines(lines[1..], base, top, found);
      } else if line.value.value != "" {
        KeyOneLine(lines[0], base);
        CoerceOneLine(line.value.value);
        ReadOneLines(lines[1..], base, top, found[line.value.key := CoerceScalar(line.value.value)]);
      } else {
        var n := BlockLength(lines[1..], base, top);
        KeptOneLines(lines[1..1 + n], top);
        BlockOneLines(Kept(lines[1..1 + n], top));
        ReadOneLines(lines[1 + n..], base, top, found[line.value.key := BlockValue(Kept(lines[1..1 + n], top))]);
      }
    }
  }

  lemma {:induction false} BlockOneLines(block: seq<string>)
    requires OneLines(block)
    ensures OneLineYaml(BlockValue(block))
    decreases |block|, 1
  {
    hide Read, IsDash, DashItems;
    if block != [] {
      DashOneLines(block);
      ReadOneLines(block, MinIndent(block), false, map[]);
    }
  }

  /** Whatever a file holds, the front matter that is read from it has one-line texts only. */
  lemma FrontMatterOneLines(content: string)
    requires SplitFrontMatter(content).Some?
    ensures OneLineMap(Read(Split(SplitFrontMatter(content).value.yaml, '\n'), 0, true, map[]))
  {
    hide Read, Split, OneLine, Trim, IndexOf;
    var yaml := SplitFrontMatter(content).value.yaml;
    FrontMatterNoDashes(content);
    forall i | 0 <= i < |Split(yaml, '\n')| ensures OneLine(Split(yaml, '\n')[i]) {
      PieceOneLine(yaml, i);
    }
    ReadOneLines(Split(yaml, '\n'), 0, true, map[]);
  }

  lemma PieceOneLine(yaml: string, i: nat)
    requires NoDashes(yaml) && i < |Split(yaml, '\n')|
    ensures OneLine(Split(yaml, '\n')[i])
  {
    hide Split;
    var a, b := SplitPiece(yaml, '\n', i);
    PartOneLine(yaml, a, b);
  }

  lemma FrontMatterNoDashes(content: string)
    requires SplitFrontMatter(content).Some?
    ensures NoDashes(SplitFrontMatter(content).value.yaml)
  {
    hide Trim, IndexOf;
    var t := Trim(content);
    var end := IndexOf(t, "---", 3);
    var body := t[3..end];
    forall i: nat | i + 2 < |body| ensures !(body[i] == '-' && body[i + 1] == '-' && body[i + 2] == '-') {
      IndexOfLeast(t, "---", 3, i + 3);
      assert body[i] == t[i + 3] && body[i + 1] == t[i + 4] && body[i + 2] == t[i + 5];
      assert t[i + 3..i + 6] == [t[i + 3], t[i + 4], t[i + 5]];
    }
    var before, core, after := Pieces(body);
    assert body[|before|..|before| + |core|] == core;
    PartOneLine(body, |before|, |before| + |core|);
  }
}
