/**
 SKILL.md manifests: `renderSkillFile`, `parseSkillFile` and the round trip between them
 (packages/core/src/skill-manifest.ts:85-126, 222-280, 295-352, 357-406).
 */
module SkillManifest {
  import opened Options
  import opened Text
  import opened SkillYaml
  import opened SkillFrontMatter
  import opened SkillLocales
  import Sequences

  function FilledList(items: Option<seq<string>>): Option<seq<string>> {
    if items.Some? && items.value != [] then items else None
  }

  datatype Requirements = Requirements(env: Option<seq<string>>, mcpServers: Option<seq<string>>, tools: Option<seq<string>>)

  /** The `requires` gates. */
  datatype Gates = Gates(bins: Option<seq<string>>, env: Option<seq<string>>, tools: Option<seq<string>>)

  datatype LocaleMeta = LocaleMeta(name: Option<string>, description: Option<string>, triggers: Option<seq<string>>)

  datatype LocaleMetas = LocaleMetas(en: Option<LocaleMeta>, ko: Option<LocaleMeta>)

  /** A manifest in memory has text scalars; a parsed one may hold whatever the front matter reader makes of them. */
  datatype Manifest<S> = Manifest(
    name: S, description: S, triggers: seq<string>, tools: Option<seq<string>>, category: Option<S>,
    gates: Option<Gates>, always: Option<bool>, version: Option<S>, author: Option<S>, license: Option<S>,
    categories: Option<seq<S>>, platforms: Option<seq<string>>, configRequirements: Option<Requirements>,
    updatedAt: Option<S>, i18n: Option<LocaleMetas>, contentHash: Option<S>)

  datatype SkillFile = SkillFile(manifest: Manifest<Yaml>, instructions: Localized)

  // ---- Reading a manifest ----

  function Get(y: map<string, Yaml>, key: string): Option<Yaml> {
    if key in y then Some(y[key]) else None
  }

  /** The list under a key, when there is a list. */
  function ListAt(y: map<string, Yaml>, key: string): Option<seq<string>> {
    if key in y && y[key].Arr? then Some(y[key].items) else None
  }

  function TextAt(y: map<string, Yaml>, key: string): Option<string> {
    if key in y && y[key].Str? then Some(y[key].text) else None
  }

  /** JavaScript truth. */
  predicate Truthy(y: Yaml) {
    match y
    case Str(text) => text != ""
    case Bool(truth) => truth
    case Null => false
    case _ => true
  }

  /** `value ?? fallback` */
  function OrElse(value: Option<Yaml>, fallback: string): Yaml {
    if value.None? || value.value.Null? then Str(fallback) else value.value
  }

  function ParseConfigRequirements(raw: Option<Yaml>): Option<Requirements> {
    if raw.None? || !raw.value.Obj? then None
    else
      var y := raw.value.fields;
      var r := Requirements(ListAt(y, "env"), ListAt(y, "mcpServers"), ListAt(y, "tools"));
      if r == Requirements(None, None, None) then None else Some(r)
  }

  function ParseRequires(raw: Option<Yaml>): Option<Gates> {
    if raw.None? || !raw.value.Obj? then None
    else
      var y := raw.value.fields;
      var g := Gates(ListAt(y, "bins"), ListAt(y, "env"), ListAt(y, "tools"));
      if g == Gates(None, None, None) then None else Some(g)
  }

  function ParseLocale(raw: Option<Yaml>): Option<LocaleMeta> {
    if raw.None? || !raw.value.Obj? then None
    else
      var y := raw.value.fields;
      var meta := LocaleMeta(TextAt(y, "name"), TextAt(y, "description"), ListAt(y, "triggers"));
      if meta == LocaleMeta(None, None, None) then None else Some(meta)
  }

  function ParseLocalizedMetadata(raw: Option<Yaml>): Option<LocaleMetas> {
    if raw.None? || !raw.value.Obj? then None
    else
      var l := LocaleMetas(ParseLocale(Get(raw.value.fields, "en")), ParseLocale(Get(raw.value.fields, "ko")));
      if l == LocaleMetas(None, None) then None else Some(l)
  }

  /** The manifest in the fields of a front matter; nothing without a name. */
  function ReadManifest(y: map<string, Yaml>): Option<Manifest<Yaml>> {
    if "name" !in y || !Truthy(y["name"]) then None
    else
      var category := Get(y, "category");
      var categories :=
        if "categories" in y && y["categories"].Arr? then Texts(y["categories"].items)
        else if category.Some? && Truthy(category.value) then [category.value]
        else [];
      var triggers := ListAt(y, "triggers");
      Some(Manifest(
        y["name"], OrElse(Get(y, "description"), ""), if triggers.Some? then triggers.value else [], ListAt(y, "tools"),
        category, ParseRequires(Get(y, "requires")),
        Some(Get(y, "always") == Some(Bool(true)) || Get(y, "always") == Some(Str("true"))),
        Some(OrElse(Get(y, "version"), "0.0.0")), Get(y, "author"), Some(OrElse(Get(y, "license"), "UNLICENSED")),
        Some(categories), ListAt(y, "platforms"), ParseConfigRequirements(Get(y, "config_requirements")),
        Get(y, "updated_at"), ParseLocalizedMetadata(Get(y, "i18n")), Get(y, "content_hash")))
  }

  function Texts(items: seq<string>): (r: seq<Yaml>)
    ensures |r| == |items| && forall i :: 0 <= i < |items| ==> r[i] == Str(items[i])
  {
    if items == [] then [] else [Str(items[0])] + Texts(items[1..])
  }

  function Parsed(content: string): Option<SkillFile> {
    var split := SplitFrontMatter(content);
    if split.None? then None
    else
      var manifest := ReadManifest(Read(Split(split.value.yaml, '\n'), 0, true, map[]));
      if manifest.None? then None else Some(SkillFile(manifest.value, ExtractLocalized(split.value.rest)))
  }

  /** `parseSkillFile` */
  method ParseSkillFile(content: string) returns (r: Option<SkillFile>)
    ensures r == Parsed(content)
  {
    hide ReadManifest, Read, ExtractLocalized, Trim, Text.Split, IndexOf;
    var trimmed := Trim(content);
    if !StartsWith(trimmed, "---") { return None; }
    var endIndex := IndexOf(trimmed, "---", 3);
    if endIndex == -1 { return None; }
    var yamlBlock := Trim(trimmed[3..endIndex]);
    var rawInstructions := Trim(trimmed[endIndex + 3..]);
    var localized := ExtractLocalized(rawInstructions);
    var yaml := ParseSimpleYaml(yamlBlock);
    var manifest := ReadManifest(yaml);
    if manifest.None? { return None; }
    return Some(SkillFile(manifest.value, localized));
  }

  // ---- Printing a manifest ----

  /** A key that is printed when it has something to show. */
  datatype Slot = Slot(key: string, shown: Option<Shown>)

  function Present(slots: seq<Slot>): (fields: seq<Field>) {
    if slots == [] then []
    else if slots[0].shown.None? then Present(slots[1..])
    else [Field(slots[0].key, slots[0].shown.value)] + Present(slots[1..])
  }

  function TextSlot(text: Option<string>): Option<Shown> {
    if text.Some? && text.value != "" then Some(Scalar(text.value)) else None
  }

  function ListSlot(items: Option<seq<string>>): Option<Shown> {
    if items.Some? && items.value != [] then Some(Items(items.value)) else None
  }

  predicate HasCategories(m: Manifest<string>) { m.categories.Some? && m.categories.value != [] }

  function RequirementSlots(r: Requirements): seq<Slot> {
    [Slot("env", ListSlot(r.env)), Slot("mcpServers", ListSlot(r.mcpServers)), Slot("tools", ListSlot(r.tools))]
  }

  function RequirementsSlot(r: Option<Requirements>): Slot {
    Slot("config_requirements", if r.None? then None else Some(Nest(Present(RequirementSlots(r.value)))))
  }

  function Slots(m: Manifest<string>): (slots: seq<Slot>)
    ensures |slots| == 13
  {
    [Slot("name", Some(Scalar(m.name))),
     Slot("description", Some(Scalar(m.description))),
     Slot("version", TextSlot(m.version)),
     Slot("author", TextSlot(m.author)),
     Slot("license", TextSlot(m.license)),
     Slot("triggers", ListSlot(Some(m.triggers))),
     Slot("categories", ListSlot(m.categories)),
     Slot("category", if HasCategories(m) then None else TextSlot(m.category)),
     Slot("platforms", ListSlot(m.platforms)),
     Slot("tools", ListSlot(m.tools)),
     RequirementsSlot(m.configRequirements),
     Slot("updated_at", TextSlot(m.updatedAt)),
     Slot("content_hash", TextSlot(m.contentHash))]
  }

  function Rendered(m: Manifest<string>, instructions: string): string {
    FileText(FieldLines("", Present(Slots(m))), instructions)
  }

  function SlotLines(pad: string, slot: Slot): seq<string> {
    if slot.shown.None? then []
    else [pad + KeyText(slot.key, slot.shown.value)] + Below(pad + "  ", slot.shown.value)
  }

  /** The lines pushed after the first `k` slots. */
  function LinesUpTo(front: seq<string>, pad: string, slots: seq<Slot>, k: nat): seq<string>
    requires k <= |slots|
  {
    front + FieldLines(pad, Present(slots[..k]))
  }

  lemma {:induction false} FieldLinesConcat(pad: string, a: seq<Field>, b: seq<Field>)
    ensures FieldLines(pad, a + b) == FieldLines(pad, a) + FieldLines(pad, b)
  {
    if a == [] {
      assert a + b == b;
    } else {
      FieldLinesConcat(pad, a[1..], b);
      FieldLinesFrom(pad, a[0], a[1..], b);
      assert [a[0]] + a[1..] == a;
    }
  }

  lemma FieldLinesFrom(pad: string, f: Field, a: seq<Field>, b: seq<Field>)
    requires FieldLines(pad, a + b) == FieldLines(pad, a) + FieldLines(pad, b)
    ensures FieldLines(pad, [f] + a + b) == FieldLines(pad, [f] + a) + FieldLines(pad, b)
  {
    FirstFieldLines(pad, f, a);
    FirstFieldLines(pad, f, a + b);
    assert [f] + (a + b) == [f] + a + b;
    var head := SlotLines(pad, Slot(f.key, Some(f.shown)));
    hide FieldLines, SlotLines, KeyText, Below;
    Sequences.Regroup(head, FieldLines(pad, a), FieldLines(pad, b));
  }

  lemma FirstFieldLines(pad: string, f: Field, rest: seq<Field>)
    ensures FieldLines(pad, [f] + rest) == SlotLines(pad, Slot(f.key, Some(f.shown))) + FieldLines(pad, rest)
  {
    assert ([f] + rest)[1..] == rest;
  }

  lemma {:induction false} PresentSnoc(slots: seq<Slot>, slot: Slot)
    ensures Present(slots + [slot])
         == if slot.shown.None? then Present(slots) else Present(slots) + [Field(slot.key, slot.shown.value)]
  {
    if slots == [] {
      assert slots + [slot] == [slot] && [slot][1..] == [];
    } else {
      PresentSnoc(slots[1..], slot);
      assert (slots + [slot])[1..] == slots[1..] + [slot];
    }
  }

  lemma NoSlots(front: seq<string>, pad: string, slots: seq<Slot>)
    ensures LinesUpTo(front, pad, slots, 0) == front
  {
  }

  lemma NextSlot(front: seq<string>, pad: string, slots: seq<Slot>, k: nat)
    requires k < |slots|
    ensures LinesUpTo(front, pad, slots, k + 1) == LinesUpTo(front, pad, slots, k) + SlotLines(pad, slots[k])
  {
    var slot := slots[k];
    assert slots[..k + 1] == slots[..k] + [slot];
    PresentSnoc(slots[..k], slot);
    if slot.shown.Some? {
      var f := Field(slot.key, slot.shown.value);
      FieldLinesConcat(pad, Present(slots[..k]), [f]);
      OneFieldLines(pad, f);
    }
  }

  lemma OneFieldLines(pad: string, f: Field)
    ensures FieldLines(pad, [f]) == SlotLines(pad, Slot(f.key, Some(f.shown)))
  {
    assert [f][1..] == [] && FieldLines(pad, []) == [];
  }

  method PushItems(lines: seq<string>, pad: string, items: seq<string>) returns (r: seq<string>)
    ensures r == lines + Dashed(pad, items)
  {
    r := lines;
    for i := 0 to |items|
      invariant r + Dashed(pad, items[i..]) == lines + Dashed(pad, items)
    {
      assert items[i..][0] == items[i] && items[i..][1..] == items[i + 1..];
      r := r + [pad + "- " + items[i]];
    }
  }

  method PushText(lines: seq<string>, key: string, text: Option<string>) returns (r: seq<string>)
    ensures r == lines + SlotLines("", Slot(key, TextSlot(text)))
  {
    r := lines;
    if text.Some? && text.value != "" {
      r := r + [key + ": " + text.value];
      TextLine(key, text.value);
    }
  }

  lemma TextLine(key: string, text: string)
    ensures SlotLines("", Slot(key, Some(Scalar(text)))) == [key + ": " + text]
  {
    assert "" + KeyText(key, Scalar(text)) == key + ": " + text;
  }

  method PushList(lines: seq<string>, pad: string, key: string, items: Option<seq<string>>) returns (r: seq<string>)
    ensures r == lines + SlotLines(pad, Slot(key, ListSlot(items)))
  {
    r := lines;
    if items.Some? && |items.value| > 0 {
      r := r + [pad + key + ":"];
      assert pad + key + ":" == pad + KeyText(key, Items(items.value));
      r := PushItems(r, pad + "  ", items.value);
    }
  }

  method PushRequirements(lines: seq<string>, requirements: Option<Requirements>) returns (r: seq<string>)
    ensures r == lines + SlotLines("", RequirementsSlot(requirements))
  {
    if requirements.None? { return lines; }
    hide SlotLines, ListSlot, LinesUpTo, RequirementsSlot;
    var c := requirements.value;
    r := lines + ["config_requirements:"];
    ghost var slots, start := RequirementSlots(c), r;
    NoSlots(start, "  ", slots);
    r := PushList(r, "  ", "env", c.env);
    NextSlot(start, "  ", slots, 0);
    r := PushList(r, "  ", "mcpServers", c.mcpServers);
    NextSlot(start, "  ", slots, 1);
    r := PushList(r, "  ", "tools", c.tools);
    NextSlot(start, "  ", slots, 2);
    NestLines(lines, c);
  }

  lemma NestLines(lines: seq<string>, c: Requirements)
    ensures lines + SlotLines("", RequirementsSlot(Some(c)))
         == LinesUpTo(lines + ["config_requirements:"], "  ", RequirementSlots(c), 3)
  {
    hide FieldLines, Present;
    var slots := RequirementSlots(c);
    assert slots[..3] == slots;
    var fields := Present(slots);
    assert "" + KeyText("config_requirements", Nest(fields)) == "config_requirements:";
    assert "" + "  " == "  ";
    assert SlotLines("", RequirementsSlot(Some(c))) == ["config_requirements:"] + FieldLines("  ", fields);
  }

  /** `renderSkillFile` */
  method RenderSkillFile(m: Manifest<string>, instructions: string) returns (content: string)
    ensures content == Rendered(m, instructions)
  {
    hide SlotLines, TextSlot, ListSlot, LinesUpTo, Present, FieldLines, RequirementsSlot, Join;
    ghost var slots, start := Slots(m), ["---"];
    var lines := ["---"];
    NoSlots(start, "", slots);
    lines := lines + ["name: " + m.name];
    assert "name" + ": " == "name: " && "description" + ": " == "description: ";
    TextLine("name", m.name);
    NextSlot(start, "", slots, 0);
    lines := lines + ["description: " + m.description];
    TextLine("description", m.description);
    NextSlot(start, "", slots, 1);
    lines := PushText(lines, "version", m.version);
    NextSlot(start, "", slots, 2);
    lines := PushText(lines, "author", m.author);
    NextSlot(start, "", slots, 3);
    lines := PushText(lines, "license", m.license);
    NextSlot(start, "", slots, 4);
    lines := PushList(lines, "", "triggers", Some(m.triggers));
    NextSlot(start, "", slots, 5);
    lines := PushList(lines, "", "categories", m.categories);
    NextSlot(start, "", slots, 6);
    if !HasCategories(m) {
      lines := PushText(lines, "category", m.category);
    } else {
      NothingShown(lines, "category");
    }
    NextSlot(start, "", slots, 7);
    lines := PushList(lines, "", "platforms", m.platforms);
    NextSlot(start, "", slots, 8);
    lines := PushList(lines, "", "tools", m.tools);
    NextSlot(start, "", slots, 9);
    lines := PushRequirements(lines, m.configRequirements);
    NextSlot(start, "", slots, 10);
    lines := PushText(lines, "updated_at", m.updatedAt);
    NextSlot(start, "", slots, 11);
    lines := PushText(lines, "content_hash", m.contentHash);
    NextSlot(start, "", slots, 12);
    lines := lines + ["---"];
    lines := lines + [""];
    lines := lines + [instructions];
    AllLines(m, instructions, lines);
    content := Join(lines, '\n');
  }

  lemma NothingShown(lines: seq<string>, key: string)
    ensures lines + SlotLines("", Slot(key, None)) == lines
  {
  }

  lemma AllLines(m: Manifest<string>, instructions: string, lines: seq<string>)
    requires lines == LinesUpTo(["---"], "", Slots(m), 13) + ["---"] + [""] + [instructions]
    ensures Join(lines, '\n') == Rendered(m, instructions)
  {
    hide FieldLines, Present, Slots, Join;
    assert Slots(m)[..13] == Slots(m);
    assert lines == ["---"] + FieldLines("", Present(Slots(m))) + ["---", "", instructions];
  }

  // ---- Looking up what was printed ----

  predicate DistinctKeys(slots: seq<Slot>) {
    forall i, j :: 0 <= i < j < |slots| ==> slots[i].key != slots[j].key
  }

  /** A key in a printed tree has the value of its slot, or is missing with it. */
  ghost predicate Holds(y: map<string, Yaml>, slot: Slot) {
    (slot.key in y <==> slot.shown.Some?) && (slot.shown.Some? ==> y[slot.key] == Value(slot.shown.value))
  }

  lemma {:induction false} ValuesElsewhere(slots: seq<Slot>, key: string, found: map<string, Yaml>)
    requires forall i :: 0 <= i < |slots| ==> slots[i].key != key
    ensures Get(Values(Present(slots), found), key) == Get(found, key)
  {
    hide Value;
    if slots != [] {
      var slot := slots[0];
      if slot.shown.None? {
        ValuesElsewhere(slots[1..], key, found);
      } else {
        ValuesElsewhere(slots[1..], key, found[slot.key := Value(slot.shown.value)]);
      }
    }
  }

  lemma {:induction false} ValuesHold(slots: seq<Slot>, k: nat, found: map<string, Yaml>)
    requires DistinctKeys(slots) && k < |slots| && slots[k].key !in found
    ensures Holds(Values(Present(slots), found), slots[k])
  {
    hide Value;
    var slot := slots[0];
    var next := if slot.shown.None? then found else found[slot.key := Value(slot.shown.value)];
    if k == 0 {
      ValuesElsewhere(slots[1..], slot.key, next);
    } else {
      ValuesHold(slots[1..], k - 1, next);
    }
  }

  /** Different lengths or first characters. */
  predicate Differ(a: string, b: string) {
    a != "" && b != "" && (|a| != |b| || a[0] != b[0])
  }

  lemma SlotsDistinct(m: Manifest<string>)
    ensures DistinctKeys(Slots(m))
  {
    hide TextSlot, ListSlot, Present;
    forall i, j | 0 <= i < j < 13 ensures Slots(m)[i].key != Slots(m)[j].key {
      assert Differ(Slots(m)[i].key, Slots(m)[j].key);
    }
  }

  /** A slot holds what its text reads as. */
  function TextValue(text: Option<string>): Option<Yaml> {
    if text.Some? && text.value != "" then Some(CoerceScalar(text.value)) else None
  }

  lemma ScalarHeld(y: map<string, Yaml>, key: string, text: string)
    requires Holds(y, Slot(key, Some(Scalar(text))))
    ensures key in y && y[key] == Value(Scalar(text))
  {
  }

  lemma MissingHeld(y: map<string, Yaml>, key: string)
    requires Holds(y, Slot(key, None))
    ensures key !in y
  {
  }

  lemma TextHeld(y: map<string, Yaml>, key: string, text: Option<string>)
    requires Holds(y, Slot(key, TextSlot(text)))
    ensures Get(y, key) == TextValue(text)
  {
  }

  lemma ListHeld(y: map<string, Yaml>, key: string, items: Option<seq<string>>)
    requires Holds(y, Slot(key, ListSlot(items)))
    ensures ListAt(y, key) == FilledList(items)
    ensures items.Some? && items.value != [] ==> key in y && y[key] == Arr(items.value)
    ensures items.None? || items.value == [] ==> key !in y
  {
  }

  // ---- The round trip ----

  function ReadBackRequirements(r: Option<Requirements>): Option<Requirements> {
    if r.None? then None
    else
      var back := Requirements(FilledList(r.value.env), FilledList(r.value.mcpServers), FilledList(r.value.tools));
      if back == Requirements(None, None, None) then None else Some(back)
  }

  /** What comes back when a manifest is printed and parsed. */
  function ReadBack(m: Manifest<string>): Option<Manifest<Yaml>> {
    var name := Value(Scalar(m.name));
    if !Truthy(name) then None
    else
      var category := if HasCategories(m) then None else TextValue(m.category);
      var categories :=
        if HasCategories(m) then Texts(m.categories.value)
        else if category.Some? && Truthy(category.value) then [category.value]
        else [];
      Some(Manifest(
        name, OrElse(Some(Value(Scalar(m.description))), ""), m.triggers, FilledList(m.tools), category, None, Some(false),
        Some(OrElse(TextValue(m.version), "0.0.0")), TextValue(m.author), Some(OrElse(TextValue(m.license), "UNLICENSED")),
        Some(categories), FilledList(m.platforms), ReadBackRequirements(m.configRequirements),
        TextValue(m.updatedAt), None, TextValue(m.contentHash)))
  }

  lemma RequirementsHeld(y: map<string, Yaml>, r: Option<Requirements>)
    requires Holds(y, RequirementsSlot(r))
    ensures ParseConfigRequirements(Get(y, "config_requirements")) == ReadBackRequirements(r)
  {
    if r.Some? {
      var slots := RequirementSlots(r.value);
      var fields := Present(slots);
      assert y["config_requirements"] == Value(Nest(fields));
      RequirementFields(r.value);
      if fields != [] {
        var v := Values(fields, map[]);
        hide Value, Present, Values, ListSlot;
        ListHeld(v, "env", r.value.env);
        ListHeld(v, "mcpServers", r.value.mcpServers);
        ListHeld(v, "tools", r.value.tools);
      }
    }
  }

  lemma RequirementFields(r: Requirements)
    ensures var slots := RequirementSlots(r); var v := Values(Present(slots), map[]);
            && Holds(v, slots[0]) && Holds(v, slots[1]) && Holds(v, slots[2])
            && (Present(slots) == [] ==> FilledList(r.env) == FilledList(r.mcpServers) == FilledList(r.tools) == None)
  {
    var slots := RequirementSlots(r);
    assert Differ("env", "mcpServers") && Differ("env", "tools") && Differ("mcpServers", "tools");
    ValuesHold(slots, 0, map[]);
    ValuesHold(slots, 1, map[]);
    ValuesHold(slots, 2, map[]);
    hide Values, Value;
  }

  /** Parsing the fields that a manifest printed. */
  lemma ReadPrinted(m: Manifest<string>)
    ensures ReadManifest(Values(Present(Slots(m)), map[])) == ReadBack(m)
  {
    var slots := Slots(m);
    var y := Values(Present(slots), map[]);
    SlotsDistinct(m);
    forall k | 0 <= k < 13 ensures Holds(y, slots[k]) { ValuesHold(slots, k, map[]); }
    UnprintedKeys(m);
    ReadHeld(m, y);
  }

  /** The renderer never prints these keys. */
  lemma UnprintedKeys(m: Manifest<string>)
    ensures var y := Values(Present(Slots(m)), map[]); "requires" !in y && "always" !in y && "i18n" !in y
  {
    var slots := Slots(m);
    forall i | 0 <= i < 13 ensures slots[i].key != "requires" && slots[i].key != "always" && slots[i].key != "i18n" {
      assert Differ(slots[i].key, "requires") && Differ(slots[i].key, "i18n");
      assert Differ(slots[i].key, "always") || (slots[i].key[1] == 'u' && "always"[1] == 'l');
    }
    ValuesElsewhere(slots, "requires", map[]);
    ValuesElsewhere(slots, "always", map[]);
    ValuesElsewhere(slots, "i18n", map[]);
  }

  lemma ReadHeld(m: Manifest<string>, y: map<string, Yaml>)
    requires forall k :: 0 <= k < 13 ==> Holds(y, Slots(m)[k])
    requires "requires" !in y && "always" !in y && "i18n" !in y
    ensures ReadManifest(y) == ReadBack(m)
  {
    hide Value, TextSlot, ListSlot, Holds, TextValue, CoerceScalar, ParseConfigRequirements, ReadBackRequirements;
    var slots := Slots(m);
    assert Holds(y, slots[0]) && Holds(y, slots[1]) && Holds(y, slots[2]) && Holds(y, slots[3]) && Holds(y, slots[4]);
    assert Holds(y, slots[5]) && Holds(y, slots[6]) && Holds(y, slots[7]) && Holds(y, slots[8]) && Holds(y, slots[9]);
    assert Holds(y, slots[10]) && Holds(y, slots[11]) && Holds(y, slots[12]);
    ScalarHeld(y, "name", m.name);
    ScalarHeld(y, "description", m.description);
    TextHeld(y, "version", m.version);
    TextHeld(y, "author", m.author);
    TextHeld(y, "license", m.license);
    ListHeld(y, "triggers", Some(m.triggers));
    ListHeld(y, "categories", m.categories);
    if HasCategories(m) { MissingHeld(y, "category"); } else { TextHeld(y, "category", m.category); }
    ListHeld(y, "platforms", m.platforms);
    ListHeld(y, "tools", m.tools);
    RequirementsHeld(y, m.configRequirements);
    TextHeld(y, "updated_at", m.updatedAt);
    TextHeld(y, "content_hash", m.contentHash);
  }

  // ---- The round trip of files ----

  /** A text that stays on its line. */
  predicate CleanText(s: string) { Trimmed(s) && OneLine(s) }

  predicate CleanOptional(s: Option<string>) { s.Some? ==> CleanText(s.value) }

  predicate CleanList(items: seq<string>) {
    forall i :: 0 <= i < |items| ==> CleanItem(items[i]) && OneLine(items[i])
  }

  predicate CleanLists(items: Option<seq<string>>) { items.Some? ==> CleanList(items.value) }

  /** Every text that is printed is trimmed and on one line without a `---`, and no list item is empty. */
  predicate CleanManifest(m: Manifest<string>) {
    && CleanText(m.name) && CleanText(m.description) && CleanOptional(m.version) && CleanOptional(m.author)
    && CleanOptional(m.license) && CleanOptional(m.updatedAt) && CleanOptional(m.contentHash)
    && (HasCategories(m) || CleanOptional(m.category))
    && CleanList(m.triggers) && CleanLists(m.tools) && CleanLists(m.categories) && CleanLists(m.platforms)
    && (m.configRequirements.Some? ==> CleanRequirements(m.configRequirements.value))
  }

  predicate CleanRequirements(r: Requirements) {
    CleanLists(r.env) && CleanLists(r.mcpServers) && CleanLists(r.tools)
  }

  predicate CleanSlot(slot: Slot) {
    && CleanKey(slot.key) && OneLine(slot.key)
    && (slot.shown.Some? ==> CleanShown(slot.shown.value) && OneLineShown(slot.shown.value))
  }

  lemma {:induction false} CleanSlotsFields(slots: seq<Slot>)
    requires forall i :: 0 <= i < |slots| ==> CleanSlot(slots[i])
    ensures CleanFields(Present(slots)) && OneLineFields(Present(slots))
  {
    if slots != [] {
      assert CleanSlot(slots[0]);
      CleanSlotsFields(slots[1..]);
    }
  }

  lemma CleanListSlot(key: string, items: Option<seq<string>>)
    requires CleanKey(key) && OneLine(key) && CleanLists(items)
    ensures CleanSlot(Slot(key, ListSlot(items)))
  {
  }

  /** A key of letters and underscores. */
  predicate Word(key: string) {
    key != "" && forall i :: 0 <= i < |key| ==> 'a' <= key[i] <= 'z' || 'A' <= key[i] <= 'Z' || key[i] == '_'
  }

  lemma WordIsKey(key: string)
    requires Word(key)
    ensures CleanKey(key) && OneLine(key)
  {
  }

  lemma KeysClean(m: Manifest<string>, k: nat)
    requires k < 13
    ensures CleanKey(Slots(m)[k].key) && OneLine(Slots(m)[k].key)
  {
    hide CleanKey, OneLine, TextSlot, ListSlot, Present;
    assert Word(Slots(m)[k].key);
    WordIsKey(Slots(m)[k].key);
  }

  lemma CleanPrinted(m: Manifest<string>)
    requires CleanManifest(m)
    ensures CleanFields(Present(Slots(m))) && OneLineFields(Present(Slots(m)))
  {
    forall k | 0 <= k < 13 ensures CleanSlot(Slots(m)[k]) { SlotClean(m, k); }
    CleanSlotsFields(Slots(m));
  }

  lemma RequirementsClean(r: Requirements)
    requires CleanRequirements(r)
    ensures CleanShown(Nest(Present(RequirementSlots(r)))) && OneLineShown(Nest(Present(RequirementSlots(r))))
  {
    WordIsKey("env");
    WordIsKey("mcpServers");
    WordIsKey("tools");
    CleanListSlot("env", r.env);
    CleanListSlot("mcpServers", r.mcpServers);
    CleanListSlot("tools", r.tools);
    CleanSlotsFields(RequirementSlots(r));
  }

  lemma SlotClean(m: Manifest<string>, k: nat)
    requires CleanManifest(m) && k < 13
    ensures CleanSlot(Slots(m)[k])
  {
    KeysClean(m, k);
    hide CleanKey, OneLine, Trimmed, CleanList, Present;
    if k == 10 && m.configRequirements.Some? { RequirementsClean(m.configRequirements.value); }
    if k == 5 { CleanListSlot("triggers", Some(m.triggers)); }
    if k == 6 { CleanListSlot("categories", m.categories); }
    if k == 8 { CleanListSlot("platforms", m.platforms); }
    if k == 9 { CleanListSlot("tools", m.tools); }
  }

  /** Printing a manifest and parsing the file gives what `ReadBack` says, with the instructions' locale blocks taken out. */
  lemma RoundTrip(m: Manifest<string>, instructions: string)
    requires CleanManifest(m) && Trimmed(instructions)
    ensures Parsed(Rendered(m, instructions))
         == match ReadBack(m) case None => None case Some(back) => Some(SkillFile(back, ExtractLocalized(instructions)))
  {
    hide SplitFrontMatter, Read, ReadManifest, ReadBack, ExtractLocalized, FieldLines, FileText, Values;
    CleanPrinted(m);
    assert Present(Slots(m)) != [];
    PrintedReadsBack(Present(Slots(m)), instructions);
    ReadPrinted(m);
  }

  // ---- When nothing changes ----

  /** A text that the scalar reader leaves alone (`PlainScalars` spells out which ones are not). */
  predicate Plain(s: string) { CoerceScalar(s) == Str(s) }

  predicate Set(s: Option<string>) { s.Some? && s.value != "" && Plain(s.value) }

  predicate UnsetOrSet(s: Option<string>) { s.None? || Set(s) }

  predicate UnsetOrFilled(items: Option<seq<string>>) { items.None? || items.value != [] }

  /** No field needs a default, is dropped by the printer, or reads as something other than its text. */
  predicate Canonical(m: Manifest<string>) {
    && m.name != "" && Plain(m.name) && Plain(m.description)
    && Set(m.version) && Set(m.license) && UnsetOrSet(m.author) && UnsetOrSet(m.updatedAt) && UnsetOrSet(m.contentHash)
    && m.category.None? && m.categories.Some? && UnsetOrFilled(m.tools) && UnsetOrFilled(m.platforms)
    && m.gates.None? && m.always == Some(false) && m.i18n.None?
    && (m.configRequirements.Some? ==>
          var r := m.configRequirements.value;
          && UnsetOrFilled(r.env) && UnsetOrFilled(r.mcpServers) && UnsetOrFilled(r.tools)
          && r != Requirements(None, None, None))
  }

  function AsText(s: Option<string>): Option<Yaml> {
    if s.None? then None else Some(Str(s.value))
  }

  /** The manifest with its scalars as parsed texts. */
  function Lift(m: Manifest<string>): Manifest<Yaml> {
    Manifest(Str(m.name), Str(m.description), m.triggers, m.tools, AsText(m.category), m.gates, m.always,
             AsText(m.version), AsText(m.author), AsText(m.license),
             if m.categories.None? then None else Some(Texts(m.categories.value)),
             m.platforms, m.configRequirements, AsText(m.updatedAt), m.i18n, AsText(m.contentHash))
  }

  lemma TextKept(s: Option<string>)
    ensures TextValue(s) == AsText(s) <==> UnsetOrSet(s)
  {
  }

  lemma DefaultKept(s: Option<string>, fallback: string)
    requires Plain(fallback) && fallback != ""
    ensures Some(OrElse(TextValue(s), fallback)) == AsText(s) <==> Set(s)
  {
  }

  lemma FallbacksPlain()
    ensures Plain("0.0.0") && Plain("UNLICENSED")
  {
    assert "0.0.0"[0] == '0' && "UNLICENSED"[0] == 'U';
    PlainScalars("0.0.0");
    PlainScalars("UNLICENSED");
  }

  lemma RequirementsKept(r: Option<Requirements>)
    ensures ReadBackRequirements(r) == r <==>
            (r.Some? ==> && UnsetOrFilled(r.value.env) && UnsetOrFilled(r.value.mcpServers) && UnsetOrFilled(r.value.tools)
                         && r.value != Requirements(None, None, None))
  {
  }

  lemma ScalarKept(s: string)
    ensures Value(Scalar(s)) == Str(s) <==> Plain(s)
  {
    PlainScalars("");
  }

  lemma DescriptionKept(s: string)
    ensures OrElse(Some(Value(Scalar(s))), "") == Str(s) <==> Plain(s)
  {
    ScalarKept(s);
    assert Plain("");
  }

  lemma CategoriesKept(m: Manifest<string>)
    ensures var category := if HasCategories(m) then None else TextValue(m.category);
            var categories :=
              if HasCategories(m) then Texts(m.categories.value)
              else if category.Some? && Truthy(category.value) then [category.value]
              else [];
            category == AsText(m.category) && Lift(m).categories == Some(categories) <==>
            m.category.None? && m.categories.Some?
  {
    TextKept(m.category);
  }

  /** Exactly when the manifest that comes back is the one that was printed. */
  lemma ReadBackExact(m: Manifest<string>)
    ensures ReadBack(m) == Some(Lift(m)) <==> Canonical(m)
  {
    ScalarKept(m.name);
    DescriptionKept(m.description);
    CategoriesKept(m);
    FallbacksPlain();
    DefaultKept(m.version, "0.0.0");
    DefaultKept(m.license, "UNLICENSED");
    TextKept(m.author);
    TextKept(m.updatedAt);
    TextKept(m.contentHash);
    RequirementsKept(m.configRequirements);
    hide CoerceScalar, ReadBackRequirements, TextValue, OrElse, Plain, Texts;
  }

  // ---- Saving again and again ----

  predicate PlainOptional(s: Option<string>) { s.Some? ==> Plain(s.value) }

  /** Printed scalars that read as their text. */
  predicate PlainManifest(m: Manifest<string>) {
    && m.name != "" && Plain(m.name) && Plain(m.description)
    && PlainOptional(m.version) && PlainOptional(m.author) && PlainOptional(m.license)
    && PlainOptional(m.updatedAt) && PlainOptional(m.contentHash)
    && (HasCategories(m) || PlainOptional(m.category))
  }

  function FilledText(s: Option<string>): Option<string> {
    if s.Some? && s.value != "" then s else None
  }

  function OrText(s: Option<string>, fallback: string): Option<string> {
    if FilledText(s).Some? then s else Some(fallback)
  }

  /** A manifest after one save and load. */
  function Saved(m: Manifest<string>): Manifest<string> {
    var category := if HasCategories(m) then None else FilledText(m.category);
    m.(tools := FilledList(m.tools), category := category, gates := None, always := Some(false),
       version := OrText(m.version, "0.0.0"), author := FilledText(m.author), license := OrText(m.license, "UNLICENSED"),
       categories := Some(if HasCategories(m) then m.categories.value else if category.Some? then [category.value] else []),
       platforms := FilledList(m.platforms), configRequirements := ReadBackRequirements(m.configRequirements),
       updatedAt := FilledText(m.updatedAt), i18n := None, contentHash := FilledText(m.contentHash))
  }

  lemma TextSaved(s: Option<string>)
    requires PlainOptional(s)
    ensures TextValue(s) == AsText(FilledText(s))
  {
  }

  lemma DefaultSaved(s: Option<string>, fallback: string)
    requires PlainOptional(s)
    ensures Some(OrElse(TextValue(s), fallback)) == AsText(OrText(s, fallback))
  {
  }

  lemma CategoriesSaved(m: Manifest<string>)
    requires HasCategories(m) || PlainOptional(m.category)
    ensures var category := if HasCategories(m) then None else TextValue(m.category);
            var categories :=
              if HasCategories(m) then Texts(m.categories.value)
              else if category.Some? && Truthy(category.value) then [category.value]
              else [];
            category == AsText(Saved(m).category) && Some(categories) == Lift(Saved(m)).categories
  {
    if !HasCategories(m) && FilledText(m.category).Some? {
      var c := m.category.value;
      assert [c][1..] == [] && Texts([c]) == [Str(c)];
    }
  }

  lemma SavedReadsBack(m: Manifest<string>)
    requires PlainManifest(m)
    ensures ReadBack(m) == Some(Lift(Saved(m))) && PlainManifest(Saved(m))
  {
    ScalarKept(m.name);
    DescriptionKept(m.description);
    FallbacksPlain();
    DefaultSaved(m.version, "0.0.0");
    DefaultSaved(m.license, "UNLICENSED");
    TextSaved(m.author);
    TextSaved(m.updatedAt);
    TextSaved(m.contentHash);
    CategoriesSaved(m);
    hide CoerceScalar, ReadBackRequirements, TextValue, OrElse, Plain, Texts;
  }

  lemma SavedRequirements(r: Option<Requirements>)
    ensures ReadBackRequirements(ReadBackRequirements(r)) == ReadBackRequirements(r)
  {
  }

  lemma SavedCanonical(m: Manifest<string>)
    requires PlainManifest(m)
    ensures Canonical(Saved(m)) <==> HasCategories(m) || FilledText(m.category).None?
  {
    SavedReadsBack(m);
    SavedRequirements(m.configRequirements);
    RequirementsKept(ReadBackRequirements(m.configRequirements));
    FallbacksPlain();
    SavedTexts(m.version, "0.0.0");
    SavedTexts(m.license, "UNLICENSED");
    SavedTexts(m.author, "");
    SavedTexts(m.updatedAt, "");
    SavedTexts(m.contentHash, "");
    hide ReadBackRequirements, Lift, ReadBack, Plain, Set, UnsetOrSet;
  }

  lemma SavedTexts(s: Option<string>, fallback: string)
    requires PlainOptional(s) && Plain(fallback)
    ensures UnsetOrSet(FilledText(s)) && (fallback != "" ==> Set(OrText(s, fallback)))
  {
  }

  /** Saving adds nothing that would leave its line. */
  lemma SavedClean(m: Manifest<string>)
    requires CleanManifest(m)
    ensures CleanManifest(Saved(m))
  {
    hide Trimmed, NoDashes;
    var saved := Saved(m);
    DefaultsClean();
    assert CleanOptional(saved.version) && CleanOptional(saved.license);
    assert CleanOptional(saved.author) && CleanOptional(saved.updatedAt) && CleanOptional(saved.contentHash);
    assert CleanLists(saved.tools) && CleanLists(saved.platforms) && CleanLists(saved.categories);
    assert saved.configRequirements.Some? ==> CleanRequirements(saved.configRequirements.value);
  }

  lemma DefaultsClean()
    ensures CleanText("0.0.0") && CleanText("UNLICENSED")
  {
    assert "0.0.0"[0] == '0' && "UNLICENSED"[0] == 'U' && "UNLICENSED"[9] == 'D';
    assert forall i :: 0 <= i < |"0.0.0"| ==> "0.0.0"[i] != '-' && "0.0.0"[i] != '\n';
    assert forall i :: 0 <= i < |"UNLICENSED"| ==> "UNLICENSED"[i] != '-' && "UNLICENSED"[i] != '\n';
  }

  /** The file that saving a manifest gives is loaded as this manifest. */
  ghost predicate LoadsAs(m: Manifest<string>, instructions: string, loaded: Manifest<string>) {
    Parsed(Rendered(m, instructions)) == Some(SkillFile(Lift(loaded), ExtractLocalized(instructions)))
  }

  /**
   Saving and loading files reaches a fixed point after two rounds. One round is enough exactly unless a lone
   `category` is in use: the first load copies it into the categories, and the next save prints only those.
   */
  lemma SavingSettles(m: Manifest<string>, instructions: string)
    requires CleanManifest(m) && PlainManifest(m) && Trimmed(instructions)
    ensures LoadsAs(m, instructions, Saved(m))
    ensures LoadsAs(Saved(m), instructions, Saved(m)) <==> HasCategories(m) || FilledText(m.category).None?
    ensures LoadsAs(Saved(m), instructions, Saved(Saved(m)))
    ensures LoadsAs(Saved(Saved(m)), instructions, Saved(Saved(m)))
  {
    hide CleanManifest, PlainManifest, Canonical, ReadBack, Saved, Parsed, Rendered, Lift, HasCategories, FilledText;
    var once, twice := Saved(m), Saved(Saved(m));
    SavedClean(m);
    SavedClean(once);
    SavedReadsBack(m);
    SavedReadsBack(once);
    SavedCanonical(m);
    SavedCanonical(once);
    SavedCategories(m);
    RoundTrip(m, instructions);
    RoundTrip(once, instructions);
    RoundTrip(twice, instructions);
    ReadBackExact(once);
    ReadBackExact(twice);
  }

  lemma SavedCategories(m: Manifest<string>)
    ensures HasCategories(Saved(m)) || FilledText(Saved(m).category).None?
  {
  }
}
