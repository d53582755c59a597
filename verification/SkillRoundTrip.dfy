/**
 Exactly which manifests and instructions survive a round trip through a SKILL.md file
 (packages/core/src/skill-manifest.ts:222-280, 357-406), whatever texts they hold.
 */
module SkillRoundTrip {
  import opened Options
  import opened Text
  import opened SkillYaml
  import opened SkillFrontMatter
  import opened SkillLocales
  import opened SkillManifest

  predicate OneLineOptional(s: Option<string>) { s.Some? ==> OneLine(s.value) }

  predicate OneLineLists(items: Option<seq<string>>) { items.Some? ==> OneLines(items.value) }

  /** No text that is printed holds a line break or a `---`. */
  predicate OneLineManifest(m: Manifest<string>) {
    && OneLine(m.name) && OneLine(m.description) && OneLineOptional(m.version) && OneLineOptional(m.author)
    && OneLineOptional(m.license) && OneLineOptional(m.updatedAt) && OneLineOptional(m.contentHash)
    && (HasCategories(m) || OneLineOptional(m.category))
    && OneLines(m.triggers) && OneLineLists(m.tools) && OneLineLists(m.categories) && OneLineLists(m.platforms)
    && (m.configRequirements.Some? ==> OneLineRequirements(m.configRequirements.value))
  }

  predicate OneLineRequirements(r: Requirements) {
    OneLineLists(r.env) && OneLineLists(r.mcpServers) && OneLineLists(r.tools)
  }

  // ---- What is read holds only one-line texts ----

  lemma GotOneLine(y: map<string, Yaml>, key: string, s: Option<string>)
    requires OneLineMap(y) && Get(y, key) == AsText(s)
    ensures OneLineOptional(s)
  {
    hide OneLine;
  }

  lemma DefaultOneLine(y: map<string, Yaml>, key: string, fallback: string, s: Option<string>)
    requires OneLineMap(y) && OneLine(fallback) && Some(OrElse(Get(y, key), fallback)) == AsText(s)
    ensures OneLineOptional(s)
  {
    hide OneLine;
  }

  lemma ListOneLines(y: map<string, Yaml>, key: string)
    requires OneLineMap(y)
    ensures OneLineLists(ListAt(y, key))
  {
    hide OneLine;
  }

  lemma SameTexts(a: seq<string>, b: seq<string>)
    requires Texts(a) == Texts(b)
    ensures a == b
  {
    assert |a| == |b|;
    forall i | 0 <= i < |a| ensures a[i] == b[i] { assert Texts(a)[i] == Texts(b)[i]; }
  }

  lemma RequirementsOneLine(y: map<string, Yaml>, r: Requirements)
    requires OneLineMap(y) && ParseConfigRequirements(Get(y, "config_requirements")) == Some(r)
    ensures OneLineRequirements(r)
  {
    hide OneLine;
    var fields := y["config_requirements"].fields;
    assert OneLineMap(fields);
    ListOneLines(fields, "env");
    ListOneLines(fields, "mcpServers");
    ListOneLines(fields, "tools");
  }

  lemma CategoriesOneLine(y: map<string, Yaml>, m: Manifest<string>)
    requires OneLineMap(y) && ReadManifest(y) == Some(Lift(m))
    ensures OneLineLists(m.categories)
  {
    hide OneLine, Texts;
    var cats := m.categories.value;
    var read := ReadManifest(y).value.categories.value;
    assert Texts(cats) == read;
    if "categories" in y && y["categories"].Arr? {
      SameTexts(cats, y["categories"].items);
    } else if read != [] {
      OneText(cats, read[0]);
    } else {
      NoTexts(cats);
    }
  }

  lemma OneText(items: seq<string>, y: Yaml)
    requires Texts(items) == [y]
    ensures |items| == 1 && y == Str(items[0])
  {
  }

  lemma NoTexts(items: seq<string>)
    requires Texts(items) == []
    ensures items == []
  {
  }

  /** A manifest that is read from one-line texts has one-line texts. */
  lemma ReadOneLine(y: map<string, Yaml>, m: Manifest<string>)
    requires OneLineMap(y) && ReadManifest(y) == Some(Lift(m))
    ensures OneLineManifest(m)
  {
    hide OneLine, OneLineMap, ParseConfigRequirements, ParseRequires, ParseLocalizedMetadata, Texts, OrElse;
    DefaultsClean();
    EmptyOneLine();
    GotOneLine(y, "name", Some(m.name));
    DefaultOneLine(y, "description", "", Some(m.description));
    DefaultOneLine(y, "version", "0.0.0", m.version);
    DefaultOneLine(y, "license", "UNLICENSED", m.license);
    GotOneLine(y, "author", m.author);
    GotOneLine(y, "updated_at", m.updatedAt);
    GotOneLine(y, "content_hash", m.contentHash);
    GotOneLine(y, "category", m.category);
    ListOneLines(y, "triggers");
    ListOneLines(y, "tools");
    ListOneLines(y, "platforms");
    CategoriesOneLine(y, m);
    if m.configRequirements.Some? { RequirementsOneLine(y, m.configRequirements.value); }
  }

  lemma EmptyOneLine()
    ensures OneLine("")
  {
  }

  // ---- Printing one-line texts ----

  predicate KeyedSlot(slot: Slot) {
    && CleanKey(slot.key) && OneLine(slot.key)
    && (slot.shown.Some? ==> KeyedShown(slot.shown.value) && OneLineShown(slot.shown.value))
  }

  lemma {:induction false} KeyedSlotsFields(slots: seq<Slot>)
    requires forall i :: 0 <= i < |slots| ==> KeyedSlot(slots[i])
    ensures KeyedFields(Present(slots)) && OneLineFields(Present(slots))
  {
    hide CleanKey, OneLine;
    if slots != [] {
      assert KeyedSlot(slots[0]);
      KeyedSlotsFields(slots[1..]);
    }
  }

  lemma KeyedListSlot(key: string, items: Option<seq<string>>)
    requires CleanKey(key) && OneLine(key) && OneLineLists(items)
    ensures KeyedSlot(Slot(key, ListSlot(items)))
  {
    hide CleanKey, OneLine;
  }

  lemma RequirementsKeyed(r: Requirements)
    requires OneLineRequirements(r)
    ensures KeyedFields(Present(RequirementSlots(r))) && OneLineFields(Present(RequirementSlots(r)))
  {
    WordIsKey("env");
    WordIsKey("mcpServers");
    WordIsKey("tools");
    hide CleanKey, OneLine, Present, ListSlot;
    KeyedListSlot("env", r.env);
    KeyedListSlot("mcpServers", r.mcpServers);
    KeyedListSlot("tools", r.tools);
    KeyedSlotsFields(RequirementSlots(r));
  }

  lemma SlotKeyed(m: Manifest<string>, k: nat)
    requires OneLineManifest(m) && k < 13
    ensures KeyedSlot(Slots(m)[k])
  {
    KeysClean(m, k);
    hide CleanKey, OneLine, Present;
    if k == 10 && m.configRequirements.Some? { RequirementsKeyed(m.configRequirements.value); }
    if k == 5 { KeyedListSlot("triggers", Some(m.triggers)); }
    if k == 6 { KeyedListSlot("categories", m.categories); }
    if k == 8 { KeyedListSlot("platforms", m.platforms); }
    if k == 9 { KeyedListSlot("tools", m.tools); }
  }

  /** The printed file of a manifest with one-line texts is read field by field. */
  lemma PrintedManifest(m: Manifest<string>, instructions: string)
    requires OneLineManifest(m) && Trimmed(instructions)
    ensures Parsed(Rendered(m, instructions))
         == match ReadManifest(ReadValues("", Present(Slots(m)), map[]))
            case None => None
            case Some(manifest) => Some(SkillFile(manifest, ExtractLocalized(instructions)))
  {
    hide SplitFrontMatter, Read, ReadManifest, ExtractLocalized, FieldLines, FileText, ReadValues;
    hide OneLineManifest, KeyedSlot;
    forall k | 0 <= k < 13 ensures KeyedSlot(Slots(m)[k]) { SlotKeyed(m, k); }
    KeyedSlotsFields(Slots(m));
    assert Present(Slots(m)) != [];
    PrintedReads(Present(Slots(m)), instructions);
  }

  // ---- A text that is read as itself is clean ----

  /** A scalar that is read back as its text was trimmed. */
  lemma ScalarTrimmed(pad: string, text: string)
    requires ReadShown(pad, Scalar(text)) == Str(text)
    ensures Trimmed(text)
  {
    hide FlowItems, Split;
    var before, core, after := Pieces(text);
    if core != "" {
      assert |text| == |before| + |core| + |after|;
      assert text == core;
    }
  }

  lemma {:induction false} DashItemsClean(block: seq<string>)
    ensures forall i :: 0 <= i < |DashItems(block)| ==> CleanItem(DashItems(block)[i])
  {
    hide Trim;
    if block != [] {
      DashItemsClean(block[1..]);
      if IsDash(block[0]) { DashItemClean(block[0]); }
    }
  }

  lemma DashItemClean(line: string)
    requires IsDash(line)
    ensures CleanItem(Trim(Trim(line)[2..]))
  {
    var before, t, after := Pieces(line);
    var b, item, a := Pieces(t[2..]);
    assert t == "- " + (b + item + a);
    BlankEnd(b, a);
  }

  lemma BlankEnd(b: string, a: string)
    requires AllSpace(b) && AllSpace(a)
    ensures !Trimmed("- " + (b + "" + a))
  {
    var t := "- " + (b + "" + a);
    assert IsSpace(t[|t| - 1]);
  }

  /** A list that is read back as it was has only clean items. */
  lemma ListClean(pad: string, items: seq<string>)
    requires ReadShown(pad, Items(items)) == Arr(items)
    ensures forall i :: 0 <= i < |items| ==> CleanItem(items[i])
  {
    hide IsDash, Read;
    DashItemsClean(Dashed(pad, items));
  }

  // ---- Looking up what was printed ----

  /** A key in the map that was read has what its printed lines read as, or is missing with them. */
  ghost predicate Shows(y: map<string, Yaml>, pad: string, slot: Slot) {
    (slot.key in y <==> slot.shown.Some?) && (slot.shown.Some? ==> y[slot.key] == ReadShown(pad, slot.shown.value))
  }

  lemma {:induction false} ShownElsewhere(pad: string, slots: seq<Slot>, key: string, found: map<string, Yaml>)
    requires forall i :: 0 <= i < |slots| ==> slots[i].key != key
    ensures Get(ReadValues(pad, Present(slots), found), key) == Get(found, key)
  {
    hide ReadShown;
    if slots != [] {
      var slot := slots[0];
      if slot.shown.None? {
        ShownElsewhere(pad, slots[1..], key, found);
      } else {
        ShownElsewhere(pad, slots[1..], key, found[slot.key := ReadShown(pad + "  ", slot.shown.value)]);
      }
    }
  }

  lemma {:induction false} ShownAt(pad: string, slots: seq<Slot>, k: nat, found: map<string, Yaml>)
    requires DistinctKeys(slots) && k < |slots| && slots[k].key !in found
    ensures Shows(ReadValues(pad, Present(slots), found), pad + "  ", slots[k])
  {
    hide ReadShown;
    var slot := slots[0];
    var next := if slot.shown.None? then found else found[slot.key := ReadShown(pad + "  ", slot.shown.value)];
    if k == 0 {
      ShownElsewhere(pad, slots[1..], slot.key, next);
    } else {
      ShownAt(pad, slots[1..], k - 1, next);
    }
  }

  lemma TextClean(y: map<string, Yaml>, pad: string, key: string, s: Option<string>)
    requires Shows(y, pad, Slot(key, TextSlot(s))) && Get(y, key) == AsText(s) && OneLineOptional(s)
    ensures CleanOptional(s)
  {
    hide OneLine, ReadShown, Trimmed;
    if s.Some? && s.value != "" { ScalarTrimmed(pad, s.value); }
    EmptyTrimmed();
  }

  lemma EmptyTrimmed()
    ensures Trimmed("") && Trimmed("0.0.0") && Trimmed("UNLICENSED")
  {
    DefaultsClean();
  }

  lemma DefaultClean(y: map<string, Yaml>, pad: string, key: string, fallback: string, shown: Option<Shown>, s: string)
    requires Shows(y, pad, Slot(key, shown)) && (shown.Some? ==> shown.value == Scalar(s))
    requires OrElse(Get(y, key), fallback) == Str(s) && OneLine(s) && Trimmed(fallback)
    ensures CleanText(s)
  {
    hide OneLine, ReadShown, Trimmed;
    if Get(y, key).Some? && !Get(y, key).value.Null? { ScalarTrimmed(pad, s); }
  }

  lemma ListAtClean(y: map<string, Yaml>, pad: string, key: string, items: Option<seq<string>>)
    requires Shows(y, pad, Slot(key, ListSlot(items))) && OneLineLists(items)
    requires items.Some? && items.value != [] ==> ListAt(y, key) == items
    ensures CleanLists(items)
  {
    hide OneLine, ReadShown, CleanItem;
    if items.Some? && items.value != [] { ListClean(pad, items.value); }
  }

  lemma NestedClean(y: map<string, Yaml>, r: Requirements)
    requires Shows(y, "  ", RequirementsSlot(Some(r))) && OneLineRequirements(r)
    requires ParseConfigRequirements(Get(y, "config_requirements")) == Some(r)
    ensures CleanRequirements(r)
  {
    var slots := RequirementSlots(r);
    RequirementsKeyed(r);
    RequirementKeys(r);
    hide OneLine, CleanItem, Read, CleanKey, Present, KeyedFields, OneLineFields, ListSlot;
    var fields := Present(slots);
    var v := y["config_requirements"];
    assert v == BlockValue(FieldLines("  ", fields));
    if fields != [] {
      NestValue("  ", fields);
      var nested := ReadValues("  ", fields, map[]);
      ShownAt("  ", slots, 0, map[]);
      ShownAt("  ", slots, 1, map[]);
      ShownAt("  ", slots, 2, map[]);
      ListAtClean(nested, "  " + "  ", "env", r.env);
      ListAtClean(nested, "  " + "  ", "mcpServers", r.mcpServers);
      ListAtClean(nested, "  " + "  ", "tools", r.tools);
    }
  }

  lemma RequirementKeys(r: Requirements)
    ensures DistinctKeys(RequirementSlots(r))
  {
    hide ListSlot;
    assert Differ("env", "mcpServers") && Differ("env", "tools") && Differ("mcpServers", "tools");
  }

  lemma CategoriesClean(y: map<string, Yaml>, m: Manifest<string>)
    requires Shows(y, "  ", Slots(m)[6]) && Shows(y, "  ", Slots(m)[7])
    requires ReadManifest(y) == Some(Lift(m)) && OneLineLists(m.categories)
    requires HasCategories(m) || OneLineOptional(m.category)
    ensures CleanLists(m.categories) && (HasCategories(m) || CleanOptional(m.category))
  {
    hide OneLine, Texts, ReadShown, CleanItem, Trimmed, TextSlot, ListSlot, OrElse, ParseConfigRequirements;
    if HasCategories(m) {
      assert Slots(m)[7] == Slot("category", None) && "category" !in y;
      var cats := m.categories.value;
      if "categories" in y && y["categories"].Arr? {
        SameTexts(cats, y["categories"].items);
      } else {
        NoTexts(cats);
      }
      ListAtClean(y, "  ", "categories", m.categories);
    } else {
      TextClean(y, "  ", "category", m.category);
      EmptyLists(m.categories);
    }
  }

  lemma EmptyLists(items: Option<seq<string>>)
    ensures items.None? || items.value == [] ==> CleanLists(items)
  {
  }

  /** A manifest with one-line texts that comes back as it was is clean. */
  lemma ReadKept(m: Manifest<string>)
    requires OneLineManifest(m) && ReadManifest(ReadValues("", Present(Slots(m)), map[])) == Some(Lift(m))
    ensures CleanManifest(m)
  {
    hide Present, ReadValues, OneLine, ReadManifest, CleanItem, Trimmed, OneLineLists, OneLineOptional;
    var y := ReadValues("", Present(Slots(m)), map[]);
    SlotsDistinct(m);
    assert "" + "  " == "  ";
    forall k | 0 <= k < 13 ensures Shows(y, "  ", Slots(m)[k]) { ShownAt("", Slots(m), k, map[]); }
    ScalarsClean(m, y);
    ListsClean(m, y);
    CategoriesClean(y, m);
  }

  lemma ScalarsClean(m: Manifest<string>, y: map<string, Yaml>)
    requires forall k :: 0 <= k < 13 ==> Shows(y, "  ", Slots(m)[k])
    requires OneLineManifest(m) && ReadManifest(y) == Some(Lift(m))
    ensures CleanText(m.name) && CleanText(m.description) && CleanOptional(m.version) && CleanOptional(m.author)
    ensures CleanOptional(m.license) && CleanOptional(m.updatedAt) && CleanOptional(m.contentHash)
  {
    hide OneLine, Texts, Shows, Trimmed, TextSlot, ListSlot, OrElse, ParseConfigRequirements, RequirementsSlot, Truthy;
    EmptyTrimmed();
    var slots := Slots(m);
    assert Shows(y, "  ", slots[0]) && Shows(y, "  ", slots[1]) && Shows(y, "  ", slots[2]) && Shows(y, "  ", slots[3]);
    assert Shows(y, "  ", slots[4]) && Shows(y, "  ", slots[11]) && Shows(y, "  ", slots[12]);
    NameClean(y, m.name);
    DefaultClean(y, "  ", "description", "", Some(Scalar(m.description)), m.description);
    VersionClean(y, "version", "0.0.0", m.version);
    VersionClean(y, "license", "UNLICENSED", m.license);
    TextClean(y, "  ", "author", m.author);
    TextClean(y, "  ", "updated_at", m.updatedAt);
    TextClean(y, "  ", "content_hash", m.contentHash);
  }

  lemma NameClean(y: map<string, Yaml>, name: string)
    requires Shows(y, "  ", Slot("name", Some(Scalar(name)))) && "name" in y && y["name"] == Str(name) && OneLine(name)
    ensures CleanText(name)
  {
    hide ReadShown, OneLine, Trimmed;
    ScalarTrimmed("  ", name);
  }

  lemma VersionClean(y: map<string, Yaml>, key: string, fallback: string, s: Option<string>)
    requires Shows(y, "  ", Slot(key, TextSlot(s))) && OneLineOptional(s) && Trimmed(fallback)
    requires Some(OrElse(Get(y, key), fallback)) == AsText(s)
    ensures CleanOptional(s)
  {
    hide Shows, OrElse, OneLine, Trimmed;
    if s.Some? { DefaultClean(y, "  ", key, fallback, TextSlot(s), s.value); }
  }

  lemma ListsClean(m: Manifest<string>, y: map<string, Yaml>)
    requires forall k :: 0 <= k < 13 ==> Shows(y, "  ", Slots(m)[k])
    requires OneLineManifest(m) && ReadManifest(y) == Some(Lift(m))
    ensures CleanList(m.triggers) && CleanLists(m.tools) && CleanLists(m.platforms)
    ensures m.configRequirements.Some? ==> CleanRequirements(m.configRequirements.value)
  {
    hide OneLine, Texts, Shows, TextSlot, ListSlot, OrElse, ParseConfigRequirements, RequirementsSlot, Truthy, CleanItem;
    var slots := Slots(m);
    assert Shows(y, "  ", slots[5]) && Shows(y, "  ", slots[8]) && Shows(y, "  ", slots[9]) && Shows(y, "  ", slots[10]);
    ListAtClean(y, "  ", "triggers", Some(m.triggers));
    ListAtClean(y, "  ", "platforms", m.platforms);
    ListAtClean(y, "  ", "tools", m.tools);
    if m.configRequirements.Some? { NestedClean(y, m.configRequirements.value); }
  }

  // ---- The exact rule ----

  /** What comes back as it was, came back because it is clean. */
  lemma KeptIsClean(m: Manifest<string>, instructions: string)
    requires Parsed(Rendered(m, instructions)) == Some(SkillFile(Lift(m), Localized(instructions, None, None)))
    ensures CleanManifest(m) && Trimmed(instructions)
  {
    hide Rendered, ReadManifest, Read, Split, ExtractLocalized, OneLineManifest, CleanManifest, Lift;
    hide Slots, Present, ReadValues;
    var content := Rendered(m, instructions);
    FrontMatterOneLines(content);
    ReadOneLine(Read(Split(SplitFrontMatter(content).value.yaml, '\n'), 0, true, map[]), m);
    ExtractTrimmed(SplitFrontMatter(content).value.rest);
    PrintedManifest(m, instructions);
    ReadKept(m);
  }

  lemma ExtractTrimmed(instructions: string)
    ensures Trimmed(ExtractLocalized(instructions).text)
  {
    hide Extract;
    var en := Extract(instructions, 0, "en");
    var ko := Extract(Trim(en.kept), 0, "ko");
    var before, core, after := Pieces(ko.kept);
  }

  /**
   For every manifest and all instructions: the file round trip changes nothing exactly when the manifest is clean
   and canonical and the instructions are trimmed and hold no locale block.
   */
  lemma RoundTripExact(m: Manifest<string>, instructions: string)
    ensures Parsed(Rendered(m, instructions)) == Some(SkillFile(Lift(m), Localized(instructions, None, None)))
            <==> CleanManifest(m) && Canonical(m) &&
                 Trimmed(instructions) && NoBlocks(instructions, "en") && NoBlocks(instructions, "ko")
  {
    hide Parsed, Rendered, ReadBack, Canonical, ExtractLocalized, NoBlocks, CleanManifest, Lift;
    if Parsed(Rendered(m, instructions)) == Some(SkillFile(Lift(m), Localized(instructions, None, None))) {
      KeptIsClean(m, instructions);
    }
    if CleanManifest(m) && Trimmed(instructions) {
      RoundTrip(m, instructions);
      ReadBackExact(m);
      WholeWithoutBlocks(instructions);
    }
  }
}
