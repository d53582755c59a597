/**
 The indentation-based front-matter reader of SKILL.md files (packages/core/src/skill-manifest.ts:757-900)
 and the printed form that the renderer (357-406) gives it to read.
 */
module SkillYaml {
  import opened Options
  import opened Text

  predicate Bracketed(s: string) {
    s != "" && s[0] == '[' && s[|s| - 1] == ']'
  }

  /** What a front-matter key may hold. */
  datatype Yaml = Str(text: string) | Bool(truth: bool) | Null | Arr(items: seq<string>) | Obj(fields: map<string, Yaml>)

  // ---- Scalars ----

  predicate Wrapped(s: string) {
    s != "" && (s[0] == s[|s| - 1] == '"' || s[0] == s[|s| - 1] == '\'')
  }

  /** `s.slice(1, -1)` */
  function Inside(s: string): (r: string)
    ensures s != "" ==> |r| < |s|
  {
    if |s| < 2 then "" else s[1..|s| - 1]
  }

  function FlowItems(parts: seq<string>): seq<string> {
    if parts == [] then []
    else
      var t := Trim(parts[0]);
      [if Wrapped(t) then Inside(t) else t] + FlowItems(parts[1..])
  }

  /** `coerceScalar` */
  function CoerceScalar(value: string): Yaml {
    if Bracketed(value) then
      var inner := Trim(Inside(value));
      if inner == "" then Arr([]) else Arr(FlowItems(Split(inner, ',')))
    else if Wrapped(value) then Str(Inside(value))
    else if value == "true" then Bool(true)
    else if value == "false" then Bool(false)
    else if value == "null" || value == "~" then Null
    else Str(value)
  }

  /** Exactly which scalars come back as the text they were. */
  lemma PlainScalars(s: string)
    ensures CoerceScalar(s) == Str(s) <==>
            !Bracketed(s) && !Wrapped(s) && s != "true" && s != "false" && s != "null" && s != "~"
  {
  }

  // ---- Lines ----

  predicate Comment(line: string) {
    var t := Trim(line);
    t != "" && t[0] == '#'
  }

  /** Is the line passed over while a block is collected? */
  predicate Skipped(line: string, top: bool) {
    Trim(line) == "" || (top && Comment(line))
  }

  datatype KeyLine = KeyLine(key: string, value: string)

  /** A `key: value` or `key:` line at the given indentation. */
  function ReadKey(line: string, base: int): Option<KeyLine> {
    var t := Trim(line);
    if t == "" || t[0] == '#' || Indent(line) != base then None
    else
      var colon := IndexOf(t, ":", 0);
      if colon <= 0 then None else Some(KeyLine(Trim(t[..colon]), Trim(t[colon + 1..])))
  }

  /** How many lines belong to the block of a key at indentation `base`. */
  function BlockLength(lines: seq<string>, base: int, top: bool): (n: nat)
    ensures n <= |lines|
  {
    if lines == [] || (!Skipped(lines[0], top) && Indent(lines[0]) <= base) then 0
    else 1 + BlockLength(lines[1..], base, top)
  }

  function Kept(lines: seq<string>, top: bool): (r: seq<string>)
    ensures |r| <= |lines|
  {
    if lines == [] then []
    else if Skipped(lines[0], top) then Kept(lines[1..], top)
    else [lines[0]] + Kept(lines[1..], top)
  }

  predicate IsDash(line: string) { StartsWith(Trim(line), "- ") }

  function DashItems(block: seq<string>): seq<string> {
    if block == [] then []
    else if IsDash(block[0]) then [Trim(Trim(block[0])[2..])] + DashItems(block[1..])
    else DashItems(block[1..])
  }

  /** The smallest indentation above zero, -1 when there is none. */
  function MinIndent(lines: seq<string>): (n: int)
    ensures n == -1 || n > 0
  {
    if lines == [] then -1
    else
      var first, rest := Indent(lines[0]), MinIndent(lines[1..]);
      if first == 0 then rest else if rest == -1 || first < rest then first else rest
  }

  /**
   Reading lines into the fields found so far: both parser loops in one. The top level skips comment lines
   wherever it looks for a block, a nested level does not.
   */
  function Read(lines: seq<string>, base: int, top: bool, found: map<string, Yaml>): map<string, Yaml>
    decreases |lines|, 0
  {
    if lines == [] then found
    else
      var line := ReadKey(lines[0], base);
      if line.None? then Read(lines[1..], base, top, found)
      else if line.value.value != "" then
        Read(lines[1..], base, top, found[line.value.key := CoerceScalar(line.value.value)])
      else
        var n := BlockLength(lines[1..], base, top);
        Read(lines[1 + n..], base, top, found[line.value.key := BlockValue(Kept(lines[1..1 + n], top))])
  }

  /** An indented block is a list, a nested object, or nothing. */
  function BlockValue(block: seq<string>): Yaml
    decreases |block|, 1
  {
    if block == [] then Str("")
    else if IsDash(block[0]) then Arr(DashItems(block))
    else Obj(Read(block, MinIndent(block), false, map[]))
  }

  // ---- The loops ----

  /** The inner loop of both parsers, from line `start` on. */
  method CollectBlock(lines: seq<string>, start: nat, base: int, top: bool) returns (block: seq<string>, j: nat)
    requires start <= |lines|
    ensures j == start + BlockLength(lines[start..], base, top) <= |lines|
    ensures block == Kept(lines[start..j], top)
  {
    hide Skipped, Indent;
    block, j := [], start;
    while j < |lines|
      invariant start <= j <= |lines| && block == Kept(lines[start..j], top)
      invariant BlockLength(lines[start..], base, top) == j - start + BlockLength(lines[j..], base, top)
    {
      assert lines[j..][1..] == lines[j + 1..] && lines[j..][0] == lines[j];
      KeptSnoc(lines[start..j], lines[j], top);
      assert lines[start..j + 1] == lines[start..j] + [lines[j]];
      if Skipped(lines[j], top) {
        j := j + 1;
      } else if Indent(lines[j]) <= base {
        return;
      } else {
        block := block + [lines[j]];
        j := j + 1;
      }
    }
  }

  lemma {:induction false} KeptSnoc(lines: seq<string>, line: string, top: bool)
    ensures Kept(lines + [line], top) == Kept(lines, top) + if Skipped(line, top) then [] else [line]
  {
    hide Skipped;
    if lines == [] {
      assert [] + [line] == [line];
      assert [line][1..] == [];
    } else {
      KeptSnoc(lines[1..], line, top);
      assert (lines + [line])[1..] == lines[1..] + [line];
    }
  }

  method CollectItems(block: seq<string>) returns (items: seq<string>)
    ensures items == DashItems(block)
  {
    hide IsDash;
    items := [];
    var i := 0;
    while i < |block|
      invariant 0 <= i <= |block| && DashItems(block) == items + DashItems(block[i..])
    {
      assert block[i..][1..] == block[i + 1..] && block[i..][0] == block[i];
      var t := Trim(block[i]);
      if StartsWith(t, "- ") {
        assert IsDash(block[i]) by { DashIs(block[i]); }
        items := items + [DashText(block[i])];
      } else {
        assert !IsDash(block[i]) by { DashIs(block[i]); }
      }
      i := i + 1;
    }
  }

  lemma DashIs(line: string)
    ensures IsDash(line) <==> StartsWith(Trim(line), "- ")
  {
  }

  function DashText(line: string): string
    requires IsDash(line)
  {
    Trim(Trim(line)[2..])
  }

  method BlockToValue(block: seq<string>) returns (v: Yaml)
    ensures v == BlockValue(block)
    decreases |block|, 2
  {
    if block == [] { return Str(""); }
    if StartsWith(Trim(block[0]), "- ") {
      var items := CollectItems(block);
      return Arr(items);
    }
    var fields := ParseNestedYaml(block);
    return Obj(fields);
  }

  /** `parseNestedYaml` */
  method ParseNestedYaml(blockLines: seq<string>) returns (result: map<string, Yaml>)
    ensures result == Read(blockLines, MinIndent(blockLines), false, map[])
    decreases |blockLines|, 1
  {
    var baseIndent := MinIndent(blockLines);
    result := ParseLevel(blockLines, baseIndent, false);
  }

  /** The loop of both parsers over the lines of one level. */
  method ParseLevel(lines: seq<string>, base: int, top: bool) returns (result: map<string, Yaml>)
    ensures result == Read(lines, base, top, map[])
    decreases |lines|, 0
  {
    hide ReadKey, CoerceScalar, BlockValue, Kept, BlockLength;
    result := map[];
    var i := 0;
    while i < |lines|
      invariant 0 <= i <= |lines|
      invariant Read(lines, base, top, map[]) == Read(lines[i..], base, top, result)
    {
      assert lines[i..][1..] == lines[i + 1..] && lines[i..][0] == lines[i];
      ReadStep(lines[i..], base, top, result);
      var line := ReadKey(lines[i], base);
      if line.None? {
        i := i + 1;
      } else if line.value.value != "" {
        result := result[line.value.key := CoerceScalar(line.value.value)];
        i := i + 1;
      } else {
        var block, j := CollectBlock(lines, i + 1, base, top);
        assert lines[i..][1..1 + (j - i - 1)] == lines[i + 1..j] && lines[i..][1 + (j - i - 1)..] == lines[j..];
        var value := BlockToValue(block);
        result := result[line.value.key := value];
        i := j;
      }
    }
  }

  /** One step of reading: a line that says nothing, a scalar, or a key with a block below it. */
  lemma ReadStep(lines: seq<string>, base: int, top: bool, found: map<string, Yaml>)
    requires lines != []
    ensures var line := ReadKey(lines[0], base);
            Read(lines, base, top, found) ==
            if line.None? then Read(lines[1..], base, top, found)
            else if line.value.value != "" then
              Read(lines[1..], base, top, found[line.value.key := CoerceScalar(line.value.value)])
            else
              var n := BlockLength(lines[1..], base, top);
              Read(lines[1 + n..], base, top, found[line.value.key := BlockValue(Kept(lines[1..1 + n], top))])
  {
    hide ReadKey, CoerceScalar, BlockValue, BlockLength, Kept;
  }

  /** `parseSimpleYaml` */
  method ParseSimpleYaml(yaml: string) returns (result: map<string, Yaml>)
    ensures result == Read(Split(yaml, '\n'), 0, true, map[])
  {
    var lines := Split(yaml, '\n');
    result := ParseLevel(lines, 0, true);
  }

  // ---- Printed trees ----

  /** A value to print under a key. */
  datatype Shown = Scalar(text: string) | Items(items: seq<string>) | Nest(fields: seq<Field>)

  datatype Field = Field(key: string, shown: Shown)

  function Dashed(pad: string, items: seq<string>): (lines: seq<string>)
    ensures |lines| == |items|
  {
    if items == [] then [] else [pad + "- " + items[0]] + Dashed(pad, items[1..])
  }

  function KeyText(key: string, shown: Shown): string {
    key + ":" + if shown.Scalar? then " " + shown.text else ""
  }

  /** The lines below a key. */
  function Below(pad: string, shown: Shown): seq<string>
    decreases shown
  {
    match shown
    case Scalar(_) => []
    case Items(items) => Dashed(pad, items)
    case Nest(fields) => FieldLines(pad, fields)
  }

  function FieldLines(pad: string, fields: seq<Field>): (lines: seq<string>)
    ensures lines == [] <==> fields == []
    decreases fields
  {
    if fields == [] then []
    else [pad + KeyText(fields[0].key, fields[0].shown)] + Below(pad + "  ", fields[0].shown) + FieldLines(pad, fields[1..])
  }

  /** What reading a printed value gives: a list or an object with nothing in it is an empty text. */
  function Value(shown: Shown): Yaml {
    match shown
    case Scalar(text) => if text == "" then Str("") else CoerceScalar(text)
    case Items(items) => if items == [] then Str("") else Arr(items)
    case Nest(fields) => if fields == [] then Str("") else Obj(Values(fields, map[]))
  }

  function Values(fields: seq<Field>, found: map<string, Yaml>): map<string, Yaml> {
    if fields == [] then found
    else Values(fields[1..], found[fields[0].key := Value(fields[0].shown)])
  }

  /** A key without white space or colon that does not start a comment. */
  predicate CleanKey(key: string) {
    key != "" && key[0] != '#' && forall i :: 0 <= i < |key| ==> !IsSpace(key[i]) && key[i] != ':'
  }

  predicate CleanItem(item: string) { item != "" && Trimmed(item) }

  predicate CleanShown(shown: Shown) {
    match shown
    case Scalar(text) => Trimmed(text)
    case Items(items) => forall i :: 0 <= i < |items| ==> CleanItem(items[i])
    case Nest(fields) => CleanFields(fields)
  }

  predicate CleanFields(fields: seq<Field>) {
    fields == [] || (CleanKey(fields[0].key) && CleanShown(fields[0].shown) && CleanFields(fields[1..]))
  }

  /** Clean keys all over the tree, whatever the texts. */
  predicate KeyedShown(shown: Shown) {
    shown.Nest? ==> KeyedFields(shown.fields)
  }

  predicate KeyedFields(fields: seq<Field>) {
    fields == [] || (CleanKey(fields[0].key) && KeyedShown(fields[0].shown) && KeyedFields(fields[1..]))
  }

  lemma {:induction false} CleanIsKeyed(fields: seq<Field>)
    requires CleanFields(fields)
    ensures KeyedFields(fields)
    decreases fields
  {
    if fields != [] {
      if fields[0].shown.Nest? { CleanIsKeyed(fields[0].shown.fields); }
      CleanIsKeyed(fields[1..]);
    }
  }

  /** What reading the printed lines of a value gives, for any texts. */
  function ReadShown(pad: string, shown: Shown): Yaml {
    if shown.Scalar? && Trim(shown.text) != "" then CoerceScalar(Trim(shown.text)) else BlockValue(Below(pad, shown))
  }

  function ReadValues(pad: string, fields: seq<Field>, found: map<string, Yaml>): map<string, Yaml> {
    if fields == [] then found
    else ReadValues(pad, fields[1..], found[fields[0].key := ReadShown(pad + "  ", fields[0].shown)])
  }

  // ---- One printed line ----

  /** The first colon of a key line ends the key. */
  lemma FirstColon(key: string, rest: string)
    requires CleanKey(key)
    ensures IndexOf(key + ":" + rest, ":", 0) == |key|
  {
    var t := key + ":" + rest;
    assert MatchesAt(t, ":", |key|) by { assert t[|key|..|key| + 1] == ":"; }
    forall i: nat | i < |key| ensures !MatchesAt(t, ":", i) {
      assert t[i..i + 1][0] == key[i];
    }
    IndexOfFirst(t, ":", 0, |key|);
  }

  lemma IndentPadded(pad: string, s: string)
    requires AllSpace(pad) && s != "" && !IsSpace(s[0])
    ensures Indent(pad + s) == |pad|
  {
    TrimStartPadded(pad, s);
  }

  /** A printed key line is read as its key and its trimmed text. */
  lemma ReadKeyLine(pad: string, key: string, shown: Shown)
    requires AllSpace(pad) && CleanKey(key)
    ensures ReadKey(pad + KeyText(key, shown), |pad|) == Some(KeyLine(key, if shown.Scalar? then Trim(shown.text) else ""))
    ensures !Skipped(pad + KeyText(key, shown), true) && !IsDash(pad + KeyText(key, shown))
  {
    hide Trim, IsSpace, CleanKey, ReadKey, IsDash, Skipped, Indent, AllSpace, Trimmed;
    var shownText := if shown.Scalar? then " " + shown.text else "";
    if shown.Scalar? { TrimBlank(shown.text); } else { TrimNothing(); }
    var rest, tail := WithoutTail(shownText);
    var core := key + ":" + rest;
    var line := pad + KeyText(key, shown);
    assert KeyText(key, shown) == core + tail;
    CoreTrimmed(key, rest);
    TrimmedLine(pad, core, tail, line);
    FirstColon(key, rest);
    ReadTrimmed(line, |pad|, key, rest, Trim(shownText));
  }

  /** A text without the white space at its end. */
  lemma WithoutTail(s: string) returns (rest: string, tail: string)
    ensures s == rest + tail && AllSpace(tail) && (rest == "" || !IsSpace(rest[|rest| - 1])) && Trim(rest) == Trim(s)
  {
    var before, core, after := Pieces(s);
    hide Trim;
    if core == "" {
      rest, tail := "", before + after;
      assert "" + "" + "" == "";
      TrimPadded("", "", "");
    } else {
      rest, tail := before + core, after;
      assert before + core + "" == rest;
      TrimPadded(before, core, "");
    }
  }

  lemma CoreTrimmed(key: string, rest: string)
    requires CleanKey(key) && (rest == "" || !IsSpace(rest[|rest| - 1]))
    ensures Trimmed(key + ":" + rest) && key + ":" + rest != "" && Trim(key) == key
  {
    TrimTrimmed(key);
    hide Trim;
    var core := key + ":" + rest;
    assert core[0] == key[0] && core[|core| - 1] == if rest == "" then ':' else rest[|rest| - 1];
  }

  lemma TrimNothing()
    ensures Trim("") == ""
  {
  }

  lemma TrimBlank(s: string)
    ensures Trim(" " + s) == Trim(s)
  {
    assert (" " + s)[1..] == s;
  }

  lemma ReadTrimmed(line: string, base: nat, key: string, rest: string, text: string)
    requires CleanKey(key) && Trim(line) == key + ":" + rest && Indent(line) == base
    requires IndexOf(key + ":" + rest, ":", 0) == |key| && Trim(key) == key && Trim(rest) == text
    ensures ReadKey(line, base) == Some(KeyLine(key, text)) && !Skipped(line, true) && !IsDash(line)
  {
    hide Trim, IndexOf, Indent;
    var t := key + ":" + rest;
    assert t[..|key|] == key && t[|key| + 1..] == rest;
    assert t[1] == if |key| == 1 then ':' else key[1];
    assert !IsSpace(t[1]);
  }

  lemma TrimmedLine(pad: string, core: string, after: string, line: string)
    requires AllSpace(pad) && AllSpace(after) && core != "" && Trimmed(core) && line == pad + (core + after)
    ensures Trim(line) == core && Indent(line) == |pad|
  {
    TrimPadded(pad, core, after);
    assert pad + core + after == line;
    IndentPadded(pad, core + after);
  }

  // ---- Printed blocks ----

  /** Lines that no parser passes over, indented by at least `n`. */
  predicate From(lines: seq<string>, n: nat) {
    forall i :: 0 <= i < |lines| ==> !Skipped(lines[i], true) && Indent(lines[i]) >= n
  }

  lemma {:induction false} BlockEndsAt(block: seq<string>, rest: seq<string>, base: nat, top: bool)
    requires From(block, base + 1)
    requires rest != [] ==> !Skipped(rest[0], true) && Indent(rest[0]) <= base
    ensures BlockLength(block + rest, base, top) == |block| && Kept(block, top) == block
  {
    hide Indent;
    if block == [] {
      assert block + rest == rest;
    } else {
      assert !Skipped(block[0], true);
      BlockEndsAt(block[1..], rest, base, top);
      assert (block + rest)[1..] == block[1..] + rest;
    }
  }

  lemma BlockSlices(line: string, block: seq<string>, rest: seq<string>)
    ensures var lines := [line] + block + rest;
            && lines[1..] == block + rest && lines[1..1 + |block|] == block && lines[1 + |block|..] == rest
  {
  }

  /** One key with its block, in front of lines that no longer belong to the block. */
  lemma ReadBlock(line: string, block: seq<string>, rest: seq<string>, base: nat, top: bool, key: string,
                  found: map<string, Yaml>)
    requires ReadKey(line, base) == Some(KeyLine(key, ""))
    requires From(block, base + 1) && (rest != [] ==> !Skipped(rest[0], true) && Indent(rest[0]) <= base)
    ensures Read([line] + block + rest, base, top, found) == Read(rest, base, top, found[key := BlockValue(block)])
  {
    BlockEndsAt(block, rest, base, top);
    var lines := [line] + block + rest;
    BlockSlices(line, block, rest);
    hide ReadKey, BlockLength, Kept, BlockValue, Indent, Skipped, From;
  }

  lemma {:induction false} DashedFrom(pad: string, items: seq<string>)
    requires AllSpace(pad)
    ensures From(Dashed(pad, items), |pad|)
  {
    hide Indent, Skipped;
    if items != [] {
      DashedFrom(pad, items[1..]);
      DashedLine(pad, items[0]);
    }
  }

  lemma DashedLine(pad: string, item: string)
    requires AllSpace(pad)
    ensures var line := pad + "- " + item;
            && !Skipped(line, true) && Indent(line) == |pad|
            && (CleanItem(item) ==> IsDash(line) && Trim(Trim(line)[2..]) == item)
  {
    var line := pad + "- " + item;
    var before, text, after := Pieces(item);
    var core := if text == "" then "-" else "- " + before + text;
    var tail := if text == "" then " " + before + after else after;
    assert line == pad + (core + tail);
    TrimmedLine(pad, core, tail, line);
    if CleanItem(item) {
      TrimTrimmed(item);
      assert item == text && |before| + |after| == 0;
      assert core == "- " + item && core[2..] == item;
    }
  }

  lemma {:induction false} DashedItems(pad: string, items: seq<string>)
    requires AllSpace(pad) && forall i :: 0 <= i < |items| ==> CleanItem(items[i])
    ensures DashItems(Dashed(pad, items)) == items
    ensures items != [] ==> IsDash(Dashed(pad, items)[0])
  {
    hide IsDash;
    if items != [] {
      DashedItems(pad, items[1..]);
      DashedLine(pad, items[0]);
    }
  }

  lemma PadMore(pad: string)
    requires AllSpace(pad)
    ensures AllSpace(pad + "  ") && |pad + "  "| == |pad| + 2
  {
  }

  lemma FromConcat(line: string, block: seq<string>, rest: seq<string>, n: nat)
    requires !Skipped(line, true) && Indent(line) >= n && From(block, n) && From(rest, n)
    ensures From([line] + block + rest, n)
  {
    hide Indent, Skipped;
  }

  lemma {:induction false} FieldsFrom(pad: string, fields: seq<Field>)
    requires AllSpace(pad) && KeyedFields(fields)
    ensures From(FieldLines(pad, fields), |pad|)
    ensures fields != [] ==> var line := FieldLines(pad, fields)[0]; Indent(line) == |pad| && !IsDash(line)
    decreases fields
  {
    hide Indent, Skipped, IsDash, AllSpace, KeyText, Below, From;
    if fields == [] {
      NoLines(|pad|);
    } else {
      var f := fields[0];
      ReadKeyLine(pad, f.key, f.shown);
      KeyLineIndent(pad, f.key, f.shown);
      PadMore(pad);
      BelowFrom(pad + "  ", f.shown);
      FromWeaker(Below(pad + "  ", f.shown), |pad| + 2, |pad|);
      FieldsFrom(pad, fields[1..]);
      FromConcat(pad + KeyText(f.key, f.shown), Below(pad + "  ", f.shown), FieldLines(pad, fields[1..]), |pad|);
    }
  }

  lemma NoLines(n: nat)
    ensures From([], n)
  {
  }

  lemma KeyLineIndent(pad: string, key: string, shown: Shown)
    requires AllSpace(pad) && CleanKey(key)
    ensures Indent(pad + KeyText(key, shown)) == |pad|
  {
    IndentPadded(pad, KeyText(key, shown));
  }

  lemma {:induction false} BelowFrom(pad: string, shown: Shown)
    requires AllSpace(pad) && KeyedShown(shown)
    ensures From(Below(pad, shown), |pad|)
    decreases shown
  {
    hide Indent, Skipped, AllSpace;
    match shown
    case Scalar(_) =>
    case Items(items) => DashedFrom(pad, items);
    case Nest(fields) => FieldsFrom(pad, fields);
  }

  lemma {:induction false} MinIndentIs(lines: seq<string>, n: nat)
    requires n > 0 && From(lines, n)
    ensures MinIndent(lines) == -1 <==> lines == []
    ensures lines != [] ==> MinIndent(lines) >= n && (Indent(lines[0]) == n ==> MinIndent(lines) == n)
  {
    hide Indent, Skipped;
    if lines != [] { MinIndentIs(lines[1..], n); }
  }

  /** For every tree with clean keys, whatever its texts, reading its printed lines reads one field after the other. */
  lemma {:induction false} ReadRaw(pad: string, fields: seq<Field>, top: bool, found: map<string, Yaml>)
    requires AllSpace(pad) && KeyedFields(fields)
    ensures Read(FieldLines(pad, fields), |pad|, top, found) == ReadValues(pad, fields, found)
    decreases |fields|
  {
    if fields != [] {
      var f, more := fields[0], fields[1..];
      ReadRaw(pad, more, top, found[f.key := ReadShown(pad + "  ", f.shown)]);
      FieldsFrom(pad, more);
      ReadOneField(pad, f, FieldLines(pad, more), top, found);
    }
  }

  lemma ReadOneField(pad: string, f: Field, rest: seq<string>, top: bool, found: map<string, Yaml>)
    requires AllSpace(pad) && CleanKey(f.key) && KeyedShown(f.shown)
    requires rest != [] ==> !Skipped(rest[0], true) && Indent(rest[0]) <= |pad|
    ensures Read([pad + KeyText(f.key, f.shown)] + Below(pad + "  ", f.shown) + rest, |pad|, top, found)
         == Read(rest, |pad|, top, found[f.key := ReadShown(pad + "  ", f.shown)])
  {
    hide Indent, Skipped, IsDash, AllSpace, KeyText, ReadKey, BlockValue, Trim;
    var line, block := pad + KeyText(f.key, f.shown), Below(pad + "  ", f.shown);
    ReadKeyLine(pad, f.key, f.shown);
    PadMore(pad);
    if f.shown.Scalar? && Trim(f.shown.text) != "" {
      assert [line] + block + rest == [line] + rest;
    } else {
      BelowFrom(pad + "  ", f.shown);
      FromWeaker(block, |pad| + 2, |pad| + 1);
      ReadBlock(line, block, rest, |pad|, top, f.key, found);
    }
  }

  /** A nested tree is read at its own indentation. */
  lemma NestValue(pad: string, fields: seq<Field>)
    requires AllSpace(pad) && pad != "" && KeyedFields(fields) && fields != []
    ensures BlockValue(FieldLines(pad, fields)) == Obj(ReadValues(pad, fields, map[]))
  {
    hide Indent, Skipped, IsDash, AllSpace, Read;
    FieldsFrom(pad, fields);
    MinIndentIs(FieldLines(pad, fields), |pad|);
    ReadRaw(pad, fields, false, map[]);
  }

  /** Clean values are read as what they show. */
  lemma {:induction false} ReadClean(pad: string, shown: Shown)
    requires AllSpace(pad) && pad != "" && CleanShown(shown)
    ensures ReadShown(pad, shown) == Value(shown)
    decreases shown, 1
  {
    hide Indent, Skipped, IsDash, AllSpace, Read, Trim;
    match shown
    case Scalar(text) => TrimTrimmed(text);
    case Items(items) => DashedItems(pad, items);
    case Nest(fields) =>
      if fields != [] {
        CleanIsKeyed(fields);
        NestValue(pad, fields);
        ReadValuesClean(pad, fields, map[]);
      }
  }

  lemma {:induction false} ReadValuesClean(pad: string, fields: seq<Field>, found: map<string, Yaml>)
    requires AllSpace(pad) && CleanFields(fields)
    ensures ReadValues(pad, fields, found) == Values(fields, found)
    decreases fields, 0
  {
    hide AllSpace, CoerceScalar, ReadShown;
    if fields != [] {
      PadMore(pad);
      ReadClean(pad + "  ", fields[0].shown);
      ReadValuesClean(pad, fields[1..], found[fields[0].key := Value(fields[0].shown)]);
    }
  }

  /**
   The printer and parser law: for every tree of clean fields, to any depth, reading its printed lines gives
   its values.
   */
  lemma ReadFields(pad: string, fields: seq<Field>, top: bool, found: map<string, Yaml>)
    requires AllSpace(pad) && CleanFields(fields)
    ensures Read(FieldLines(pad, fields), |pad|, top, found) == Values(fields, found)
  {
    CleanIsKeyed(fields);
    ReadRaw(pad, fields, top, found);
    ReadValuesClean(pad, fields, found);
  }

  // ---- Only the indentation and the trimmed text of a line matter ----

  predicate SameLine(a: string, b: string) { Trim(a) == Trim(b) && Indent(a) == Indent(b) }

  predicate SameLines(a: seq<string>, b: seq<string>) {
    |a| == |b| && forall i :: 0 <= i < |a| ==> SameLine(a[i], b[i])
  }

  lemma {:induction false} BlockLengthSame(a: seq<string>, b: seq<string>, base: int, top: bool)
    requires SameLines(a, b)
    ensures BlockLength(a, base, top) == BlockLength(b, base, top)
  {
    hide Trim, Indent;
    if a != [] {
      assert SameLine(a[0], b[0]);
      BlockLengthSame(a[1..], b[1..], base, top);
    }
  }

  lemma {:induction false} KeptSame(a: seq<string>, b: seq<string>, top: bool)
    requires SameLines(a, b)
    ensures SameLines(Kept(a, top), Kept(b, top))
  {
    hide Trim, Indent;
    if a != [] {
      assert SameLine(a[0], b[0]);
      KeptSame(a[1..], b[1..], top);
    }
  }

  lemma {:induction false} DashItemsSame(a: seq<string>, b: seq<string>)
    requires SameLines(a, b)
    ensures DashItems(a) == DashItems(b)
  {
    hide Trim, Indent;
    if a != [] {
      assert SameLine(a[0], b[0]);
      DashItemsSame(a[1..], b[1..]);
    }
  }

  lemma {:induction false} MinIndentSame(a: seq<string>, b: seq<string>)
    requires SameLines(a, b)
    ensures MinIndent(a) == MinIndent(b)
  {
    hide Trim, Indent;
    if a != [] {
      assert SameLine(a[0], b[0]);
      MinIndentSame(a[1..], b[1..]);
    }
  }

  lemma {:induction false} ReadSame(a: seq<string>, b: seq<string>, base: int, top: bool, found: map<string, Yaml>)
    requires SameLines(a, b)
    ensures Read(a, base, top, found) == Read(b, base, top, found)
    decreases |a|, 0
  {
    hide Trim, Indent, BlockLength, Kept, BlockValue, CoerceScalar;
    if a != [] {
      assert SameLine(a[0], b[0]) && ReadKey(a[0], base) == ReadKey(b[0], base);
      var line := ReadKey(a[0], base);
      if line.None? {
        ReadSame(a[1..], b[1..], base, top, found);
      } else if line.value.value != "" {
        ReadSame(a[1..], b[1..], base, top, found[line.value.key := CoerceScalar(line.value.value)]);
      } else {
        BlockLengthSame(a[1..], b[1..], base, top);
        var n := BlockLength(a[1..], base, top);
        KeptSame(a[1..1 + n], b[1..1 + n], top);
        BlockValueSame(Kept(a[1..1 + n], top), Kept(b[1..1 + n], top));
        ReadSame(a[1 + n..], b[1 + n..], base, top, found[line.value.key := BlockValue(Kept(a[1..1 + n], top))]);
      }
    }
  }

  lemma {:induction false} BlockValueSame(a: seq<string>, b: seq<string>)
    requires SameLines(a, b)
    ensures BlockValue(a) == BlockValue(b)
    decreases |a|, 1
  {
    hide Trim, Indent, Read;
    if a != [] {
      assert SameLine(a[0], b[0]);
      DashItemsSame(a, b);
      MinIndentSame(a, b);
      ReadSame(a, b, MinIndent(a), false, map[]);
    }
  }

  lemma FromWeaker(lines: seq<string>, n: nat, m: nat)
    requires From(lines, n) && m <= n
    ensures From(lines, m)
  {
  }
}
