/**
 What a hand-written SKILL.md file says (packages/core/src/skill-manifest.ts:222-352, 753-900): for every tree of
 keys that such a file can hold, which part of the parsed manifest comes from which key and how its text is read.
 */
module SkillReading {
  import opened Options
  import opened Text
  import opened SkillYaml
  import opened SkillFrontMatter
  import opened SkillLocales
  import opened SkillManifest

  /** What stands under a key: the last field with this key counts. */
  function Under(fields: seq<Field>, key: string): Option<Shown> {
    if fields == [] then None
    else
      var later := Under(fields[1..], key);
      if later.Some? then later else if fields[0].key == key then Some(fields[0].shown) else None
  }

  // ---- What a written scalar means ----

  predicate Quoted(s: string) {
    s != "" && (s[0] == '"' || s[0] == '\'') && s[|s| - 1] == s[0]
  }

  predicate InBrackets(s: string) {
    s != "" && s[0] == '[' && s[|s| - 1] == ']'
  }

  predicate Keyword(s: string) { s == "true" || s == "false" || s == "null" || s == "~" }

  /** The text between quotes of either kind, or a bare text. */
  predicate WritesItem(w: string, item: string) {
    || (w == item != "" && Trimmed(item) && ',' !in item && !Quoted(item))
    || (',' !in item && (w == "\"" + item + "\"" || w == "'" + item + "'"))
  }

  predicate WritesItems(ws: seq<string>, items: seq<string>) {
    |ws| == |items| > 0 && forall i :: 0 <= i < |ws| ==> WritesItem(ws[i], items[i])
  }

  function Listed(ws: seq<string>): string
    requires ws != []
  {
    if |ws| == 1 then ws[0] else ws[0] + ", " + Listed(ws[1..])
  }

  /** An inline list of written items. */
  function FlowText(ws: seq<string>): string {
    if ws == [] then "[]" else "[" + Listed(ws) + "]"
  }

  ghost predicate ScalarMeans(t: string, y: Yaml) {
    && (t == "" ==> y == Str(""))
    && (t == "true" ==> y == Bool(true)) && (t == "false" ==> y == Bool(false))
    && (t == "null" || t == "~" ==> y == Null)
    && (forall u :: t == "\"" + u + "\"" || t == "'" + u + "'" ==> y == Str(u))
    && (Quoted(t) && |t| == 1 ==> y == Str(""))
    && (t == "[]" ==> y == Arr([])) && (InBrackets(t) ==> y.Arr?)
    && (forall ws, items :: WritesItems(ws, items) && t == FlowText(ws) ==> y == Arr(items))
    && (t != "" && !InBrackets(t) && !Quoted(t) && !Keyword(t) ==> y == Str(t))
  }

  /** What a value under a key means as it is. */
  ghost predicate Means(shown: Option<Shown>, got: Option<Yaml>) {
    match shown
    case None => got.None?
    case Some(Scalar(t)) => got.Some? && ScalarMeans(t, got.value)
    case Some(Items(items)) => got == Some(if items == [] then Str("") else Arr(items))
    case Some(Nest(fields)) => got.Some? && (if fields == [] then got.value == Str("") else got.value.Obj?)
  }

  /** What a value means where a list is wanted. */
  ghost predicate MeansList(shown: Option<Shown>, got: Option<seq<string>>) {
    match shown
    case Some(Scalar(t)) =>
      && (InBrackets(t) <==> got.Some?) && (t == "[]" ==> got == Some([]))
      && forall ws, items :: WritesItems(ws, items) && t == FlowText(ws) ==> got == Some(items)
    case Some(Items(items)) => got == if items == [] then None else Some(items)
    case _ => got.None?
  }

  /** What a value means where a text is wanted. */
  ghost predicate MeansText(shown: Option<Shown>, got: Option<string>) {
    match shown
    case None => got.None?
    case Some(Scalar(t)) =>
      && (InBrackets(t) || Keyword(t) ==> got.None?) && (t == "" ==> got == Some(""))
      && (forall u :: t == "\"" + u + "\"" || t == "'" + u + "'" ==> got == Some(u))
      && (Quoted(t) && |t| == 1 ==> got == Some(""))
      && (!InBrackets(t) && !Quoted(t) && !Keyword(t) ==> got == Some(t))
    case Some(Items(items)) => got == if items == [] then Some("") else None
    case Some(Nest(fields)) => got == if fields == [] then Some("") else None
  }

  // ---- Reading scalars ----

  lemma QuotesOff(t: string, u: string)
    requires t == "\"" + u + "\"" || t == "'" + u + "'"
    ensures Wrapped(t) && Inside(t) == u && !Bracketed(t)
  {
  }

  lemma KeywordsPlain(t: string)
    requires Keyword(t)
    ensures !Bracketed(t) && !Wrapped(t) && t != ""
  {
  }

  /** Written items, each behind a blank but the first. */
  function Spaced(ws: seq<string>): seq<string>
    requires ws != []
  {
    if |ws| == 1 then ws else [ws[0]] + Blanked(ws[1..])
  }

  function Blanked(ws: seq<string>): (r: seq<string>)
    ensures |r| == |ws| && forall i :: 0 <= i < |ws| ==> r[i] == " " + ws[i]
  {
    if ws == [] then [] else [" " + ws[0]] + Blanked(ws[1..])
  }

  lemma JoinMore(first: string, rest: seq<string>, sep: char)
    requires rest != []
    ensures Join([first] + rest, sep) == first + [sep] + Join(rest, sep)
  {
    assert ([first] + rest)[1..] == rest;
  }

  lemma {:induction false} BlankedJoined(ws: seq<string>)
    requires ws != []
    ensures Join(Blanked(ws), ',') == " " + Listed(ws)
  {
    if |ws| == 1 {
      assert Blanked(ws) == [" " + ws[0]];
    } else {
      BlankedJoined(ws[1..]);
      JoinMore(" " + ws[0], Blanked(ws[1..]), ',');
      hide Join, Listed;
      assert Listed(ws) == ws[0] + ", " + Listed(ws[1..]) by { ListedMore(ws); }
      CommaBlank(ws[0], Listed(ws[1..]));
    }
  }

  lemma ListedMore(ws: seq<string>)
    requires |ws| > 1
    ensures Listed(ws) == ws[0] + ", " + Listed(ws[1..])
  {
  }

  lemma CommaBlank(a: string, b: string)
    ensures a + [','] + (" " + b) == a + ", " + b
    ensures " " + (a + ", " + b) == (" " + a) + [','] + (" " + b)
  {
    assert ", " == [','] + " ";
  }

  lemma ListedIsJoined(ws: seq<string>)
    requires ws != []
    ensures Listed(ws) == Join(Spaced(ws), ',')
  {
    if |ws| > 1 {
      BlankedJoined(ws[1..]);
      JoinMore(ws[0], Blanked(ws[1..]), ',');
      CommaBlank(ws[0], Listed(ws[1..]));
      hide Join;
    }
  }

  lemma WrittenItem(w: string, item: string)
    requires WritesItem(w, item)
    ensures ',' !in w && w != "" && Trimmed(w) && (if Wrapped(w) then Inside(w) else w) == item
  {
    if w == "\"" + item + "\"" || w == "'" + item + "'" { QuotesOff(w, item); }
  }

  lemma SpacedItems(ws: seq<string>, items: seq<string>, i: nat)
    requires WritesItems(ws, items) && i < |ws|
    ensures |Spaced(ws)| == |ws| && (Spaced(ws)[i] == ws[i] || Spaced(ws)[i] == " " + ws[i])
    ensures ',' !in Spaced(ws)[i] && Trim(Spaced(ws)[i]) == ws[i]
  {
    assert WritesItem(ws[i], items[i]);
    SpacedPart(ws, i);
    hide WritesItems, Spaced, Blanked, Trim;
    WrittenItem(ws[i], items[i]);
    hide WritesItem, Wrapped, Inside;
    TrimTrimmed(ws[i]);
    TrimBlank(ws[i]);
  }

  lemma SpacedPart(ws: seq<string>, i: nat)
    requires i < |ws|
    ensures |Spaced(ws)| == |ws| && (Spaced(ws)[i] == ws[i] || Spaced(ws)[i] == " " + ws[i])
  {
    if i > 0 { assert ws[1..][i - 1] == ws[i]; }
  }

  lemma {:induction false} FlowItemsAre(parts: seq<string>, items: seq<string>)
    requires |parts| == |items|
    requires forall i :: 0 <= i < |parts| ==> (var t := Trim(parts[i]); if Wrapped(t) then Inside(t) else t) == items[i]
    ensures FlowItems(parts) == items
  {
    hide Trim, Wrapped, Inside;
    if parts != [] {
      assert forall i :: 0 <= i < |parts[1..]| ==> parts[1..][i] == parts[i + 1] && items[1..][i] == items[i + 1];
      FlowItemsAre(parts[1..], items[1..]);
      assert items == [items[0]] + items[1..];
    }
  }

  lemma {:induction false} ListedTrimmed(ws: seq<string>, items: seq<string>)
    requires WritesItems(ws, items)
    ensures Listed(ws) != "" && Trimmed(Listed(ws)) && Listed(ws)[0] == ws[0][0]
  {
    WrittenItem(ws[0], items[0]);
    if |ws| > 1 {
      ListedTrimmed(ws[1..], items[1..]);
      var rest := Listed(ws[1..]);
      var all := ws[0] + ", " + rest;
      assert all[0] == ws[0][0] && all[|all| - 1] == rest[|rest| - 1];
    }
  }

  lemma FlowRead(ws: seq<string>, items: seq<string>)
    requires WritesItems(ws, items)
    ensures CoerceScalar(FlowText(ws)) == Arr(items)
  {
    hide Trim, FlowItems, Split, WritesItem;
    var t, inner := FlowText(ws), Listed(ws);
    assert t[0] == '[' && t[|t| - 1] == ']' && t[1..|t| - 1] == inner;
    ListedTrimmed(ws, items);
    TrimTrimmed(inner);
    ListedIsJoined(ws);
    var parts := Spaced(ws);
    forall i | 0 <= i < |ws| ensures |parts| == |ws| && ',' !in parts[i] && Trim(parts[i]) == ws[i] {
      SpacedItems(ws, items, i);
    }
    SplitJoin(parts, ',');
    forall i | 0 <= i < |parts| ensures (var u := Trim(parts[i]); if Wrapped(u) then Inside(u) else u) == items[i] {
      assert WritesItem(ws[i], items[i]);
      WrittenItem(ws[i], items[i]);
    }
    FlowItemsAre(parts, items);
  }

  /** Every written scalar is read as what it means. */
  lemma ScalarRead(t: string)
    ensures ScalarMeans(t, Value(Scalar(t)))
  {
    hide FlowItems, Trim, Split;
    var y := Value(Scalar(t));
    if Keyword(t) { KeywordsPlain(t); }
    forall u | t == "\"" + u + "\"" || t == "'" + u + "'" ensures y == Str(u) { QuotesOff(t, u); }
    if t == "[]" { EmptyFlow(); }
    forall ws, items | WritesItems(ws, items) && t == FlowText(ws) ensures y == Arr(items) {
      FlowRead(ws, items);
      assert t != "";
    }
  }

  lemma EmptyFlow()
    ensures CoerceScalar("[]") == Arr([])
  {
    assert "[]"[1..1] == "";
    TrimTrimmed("");
  }

  lemma ShownRead(shown: Shown)
    ensures Means(Some(shown), Some(Value(shown)))
    ensures var y := Value(shown); MeansList(Some(shown), if y.Arr? then Some(y.items) else None)
    ensures var y := Value(shown); MeansText(Some(shown), if y.Str? then Some(y.text) else None)
  {
    hide CoerceScalar, Values, ScalarMeans;
    if shown.Scalar? {
      ScalarRead(shown.text);
      hide Value;
      ScalarAsList(shown.text, Value(shown));
      ScalarAsText(shown.text, Value(shown));
    }
  }

  lemma ScalarAsList(t: string, y: Yaml)
    requires ScalarMeans(t, y)
    ensures MeansList(Some(Scalar(t)), if y.Arr? then Some(y.items) else None)
  {
    hide WritesItems, FlowText;
    QuotedBracket(t);
  }

  lemma ScalarAsText(t: string, y: Yaml)
    requires ScalarMeans(t, y)
    ensures MeansText(Some(Scalar(t)), if y.Str? then Some(y.text) else None)
  {
    hide WritesItems, FlowText;
    QuotedBracket(t);
  }

  lemma QuotedBracket(t: string)
    ensures InBrackets(t) ==> t != "" && !Quoted(t) && !Keyword(t)
    ensures Quoted(t) ==> !Keyword(t) && t != ""
    ensures Quoted(t) ==> |t| == 1 || t == "\"" + t[1..|t| - 1] + "\"" || t == "'" + t[1..|t| - 1] + "'"
  {
  }

  // ---- Looking up a key ----

  lemma {:induction false} ValuesUnder(fields: seq<Field>, found: map<string, Yaml>, key: string)
    ensures var y := Values(fields, found);
            match Under(fields, key)
            case None => Get(y, key) == Get(found, key)
            case Some(shown) => Get(y, key) == Some(Value(shown))
  {
    hide Value;
    if fields != [] { ValuesUnder(fields[1..], found[fields[0].key := Value(fields[0].shown)], key); }
  }

  /** Whatever is looked up means what stands under the key. */
  lemma KeyRead(fields: seq<Field>, key: string)
    ensures var y := Values(fields, map[]);
            && Means(Under(fields, key), Get(y, key)) && MeansList(Under(fields, key), ListAt(y, key))
            && MeansText(Under(fields, key), TextAt(y, key))
  {
    hide Means, MeansList, MeansText, Values, Value;
    ValuesUnder(fields, map[], key);
    if Under(fields, key).Some? {
      ShownRead(Under(fields, key).value);
    } else {
      NothingMeans();
    }
  }

  lemma NothingMeans()
    ensures Means(None, None) && MeansList(None, None) && MeansText(None, None)
  {
  }

  // ---- What every part of the manifest comes from ----

  /** A key that may be left out or `null`. */
  ghost predicate MeansOr(shown: Option<Shown>, fallback: string, got: Yaml) {
    if shown.None? || shown == Some(Scalar("null")) || shown == Some(Scalar("~")) then got == Str(fallback)
    else Means(shown, Some(got))
  }

  /** Does JavaScript take it as true? */
  predicate Counts(shown: Option<Shown>) {
    match shown
    case None => false
    case Some(Scalar(t)) => t !in ["", "false", "null", "~", "\"", "'", "\"\"", "''"]
    case Some(Items(items)) => items != []
    case Some(Nest(fields)) => fields != []
  }

  function Nested(shown: Option<Shown>): seq<Field> {
    if shown.Some? && shown.value.Nest? then shown.value.fields else []
  }

  /** The gates under `requires`: each list from its own key, and nothing if there is no list. */
  ghost predicate GatesMean(shown: Option<Shown>, got: Option<Gates>) {
    var under := Nested(shown);
    var g := if got.Some? then got.value else Gates(None, None, None);
    && MeansList(Under(under, "bins"), g.bins) && MeansList(Under(under, "env"), g.env)
    && MeansList(Under(under, "tools"), g.tools)
    && (got.Some? <==> g.bins.Some? || g.env.Some? || g.tools.Some?)
  }

  ghost predicate RequirementsMean(shown: Option<Shown>, got: Option<Requirements>) {
    var under := Nested(shown);
    var r := if got.Some? then got.value else Requirements(None, None, None);
    && MeansList(Under(under, "env"), r.env) && MeansList(Under(under, "mcpServers"), r.mcpServers)
    && MeansList(Under(under, "tools"), r.tools)
    && (got.Some? <==> r.env.Some? || r.mcpServers.Some? || r.tools.Some?)
  }

  ghost predicate LocaleMeans(shown: Option<Shown>, got: Option<LocaleMeta>) {
    var under := Nested(shown);
    var l := if got.Some? then got.value else LocaleMeta(None, None, None);
    && MeansText(Under(under, "name"), l.name) && MeansText(Under(under, "description"), l.description)
    && MeansList(Under(under, "triggers"), l.triggers)
    && (got.Some? <==> l.name.Some? || l.description.Some? || l.triggers.Some?)
  }

  ghost predicate LocalesMean(shown: Option<Shown>, got: Option<LocaleMetas>) {
    var under := Nested(shown);
    var l := if got.Some? then got.value else LocaleMetas(None, None);
    && LocaleMeans(Under(under, "en"), l.en) && LocaleMeans(Under(under, "ko"), l.ko)
    && (got.Some? <==> l.en.Some? || l.ko.Some?)
  }

  /** The categories: the list if there is one, else the lone category if it counts. */
  ghost predicate CategoriesMean(list: Option<Shown>, lone: Option<Shown>, category: Option<Yaml>, got: Option<seq<Yaml>>) {
    && got.Some?
    && exists items ::
         && MeansList(list, items)
         && (if items.Some? then
               |got.value| == |items.value| && forall i :: 0 <= i < |items.value| ==> got.value[i] == Str(items.value[i])
             else if Counts(lone) then category.Some? && got.value == [category.value]
             else got.value == [])
  }

  predicate MeansTrue(shown: Option<Shown>) {
    shown == Some(Scalar("true")) || shown == Some(Scalar("\"true\"")) || shown == Some(Scalar("'true'"))
  }

  ghost predicate ManifestMeans(fields: seq<Field>, m: Manifest<Yaml>) {
    && Means(Under(fields, "name"), Some(m.name))
    && MeansOr(Under(fields, "description"), "", m.description)
    && (exists items :: MeansList(Under(fields, "triggers"), items) && m.triggers == if items.Some? then items.value else [])
    && MeansList(Under(fields, "tools"), m.tools)
    && Means(Under(fields, "category"), m.category)
    && CategoriesMean(Under(fields, "categories"), Under(fields, "category"), m.category, m.categories)
    && GatesMean(Under(fields, "requires"), m.gates)
    && m.always == Some(MeansTrue(Under(fields, "always")))
    && (m.version.Some? && MeansOr(Under(fields, "version"), "0.0.0", m.version.value))
    && Means(Under(fields, "author"), m.author)
    && (m.license.Some? && MeansOr(Under(fields, "license"), "UNLICENSED", m.license.value))
    && MeansList(Under(fields, "platforms"), m.platforms)
    && RequirementsMean(Under(fields, "config_requirements"), m.configRequirements)
    && Means(Under(fields, "updated_at"), m.updatedAt)
    && LocalesMean(Under(fields, "i18n"), m.i18n)
    && Means(Under(fields, "content_hash"), m.contentHash)
  }

  /** What a nested key holds: the values of its fields. */
  lemma NestRead(fields: seq<Field>, key: string)
    ensures var y := Values(fields, map[]);
            var under := Nested(Under(fields, key));
            if under == [] then Get(y, key).None? || !Get(y, key).value.Obj?
            else Get(y, key) == Some(Obj(Values(under, map[])))
  {
    hide Values;
    ValuesUnder(fields, map[], key);
    if Under(fields, key).Some? && Under(fields, key).value.Scalar? {
      ScalarRead(Under(fields, key).value.text);
      NoObject(Under(fields, key).value.text);
    }
  }

  lemma NoObject(t: string)
    ensures !Value(Scalar(t)).Obj?
  {
  }

  lemma NothingUnder(key: string)
    ensures Under([], key) == None
  {
  }

  lemma GatesRead(fields: seq<Field>)
    ensures GatesMean(Under(fields, "requires"), ParseRequires(Get(Values(fields, map[]), "requires")))
  {
    hide Values, Under, MeansList, Means, MeansText, ListAt, TextAt;
    NestRead(fields, "requires");
    NothingMeans();
    var under := Nested(Under(fields, "requires"));
    if under == [] {
      NothingUnder("bins");
      NothingUnder("env");
      NothingUnder("tools");
    } else {
      KeyRead(under, "bins");
      KeyRead(under, "env");
      KeyRead(under, "tools");
    }
  }

  lemma RequirementsRead(fields: seq<Field>)
    ensures RequirementsMean(Under(fields, "config_requirements"),
                             ParseConfigRequirements(Get(Values(fields, map[]), "config_requirements")))
  {
    hide Values, Under, MeansList, Means, MeansText, ListAt, TextAt;
    NestRead(fields, "config_requirements");
    NothingMeans();
    var under := Nested(Under(fields, "config_requirements"));
    if under == [] {
      NothingUnder("env");
      NothingUnder("mcpServers");
      NothingUnder("tools");
    } else {
      KeyRead(under, "env");
      KeyRead(under, "mcpServers");
      KeyRead(under, "tools");
    }
  }

  lemma LocaleRead(fields: seq<Field>, locale: string)
    ensures LocaleMeans(Under(fields, locale), ParseLocale(Get(Values(fields, map[]), locale)))
  {
    hide Values, Under, MeansList, Means, MeansText, ListAt, TextAt;
    NestRead(fields, locale);
    NothingMeans();
    var under := Nested(Under(fields, locale));
    if under == [] {
      NothingUnder("name");
      NothingUnder("description");
      NothingUnder("triggers");
    } else {
      KeyRead(under, "name");
      KeyRead(under, "description");
      KeyRead(under, "triggers");
    }
  }

  lemma LocalesRead(fields: seq<Field>)
    ensures LocalesMean(Under(fields, "i18n"), ParseLocalizedMetadata(Get(Values(fields, map[]), "i18n")))
  {
    hide Values, Under, LocaleMeans, ParseLocale;
    NestRead(fields, "i18n");
    var under := Nested(Under(fields, "i18n"));
    LocaleRead(under, "en");
    LocaleRead(under, "ko");
    if under == [] {
      NothingUnder("en");
      NothingUnder("ko");
      NoLocale();
    }
  }

  lemma NoLocale()
    ensures LocaleMeans(None, None)
  {
    NothingUnder("name");
    NothingUnder("description");
    NothingUnder("triggers");
    NothingMeans();
    hide MeansText, MeansList;
  }

  lemma OrRead(fields: seq<Field>, key: string, fallback: string)
    ensures MeansOr(Under(fields, key), fallback, OrElse(Get(Values(fields, map[]), key), fallback))
  {
    hide Values;
    KeyRead(fields, key);
    ValuesUnder(fields, map[], key);
    hide MeansList, MeansText;
    if Under(fields, key).Some? && Under(fields, key).value.Scalar? { NullOnly(Under(fields, key).value.text); }
  }

  /** Only these two words are read as null. */
  lemma NullOnly(t: string)
    ensures Value(Scalar(t)).Null? <==> t == "null" || t == "~"
  {
  }

  lemma AlwaysRead(fields: seq<Field>)
    ensures var a := Get(Values(fields, map[]), "always");
            (a == Some(Bool(true)) || a == Some(Str("true"))) <==> MeansTrue(Under(fields, "always"))
  {
    hide Values;
    ValuesUnder(fields, map[], "always");
    if Under(fields, "always").Some? && Under(fields, "always").value.Scalar? { TrueOnly(Under(fields, "always").value.text); }
  }

  lemma TrueOnly(t: string)
    ensures Value(Scalar(t)) in [Bool(true), Str("true")] <==> t == "true" || t == "\"true\"" || t == "'true'"
  {
    QuotesOff("\"true\"", "true");
    QuotesOff("'true'", "true");
    KeywordsPlain("true");
    QuotedBracket(t);
    hide FlowItems, Trim, Split;
    if Value(Scalar(t)) == Str("true") && Wrapped(t) { assert |t| >= 2 && t[1..|t| - 1] == "true"; }
  }

  lemma CountsRead(fields: seq<Field>, key: string)
    ensures var y := Get(Values(fields, map[]), key);
            (y.Some? && Truthy(y.value)) <==> Counts(Under(fields, key))
  {
    hide Values;
    ValuesUnder(fields, map[], key);
    if Under(fields, key).Some? && Under(fields, key).value.Scalar? { FalseOnly(Under(fields, key).value.text); }
  }

  lemma FalseOnly(t: string)
    ensures Truthy(Value(Scalar(t))) <==> t !in ["", "false", "null", "~", "\"", "'", "\"\"", "''"]
  {
    hide FlowItems, Trim, Split;
    if Wrapped(t) && |t| == 2 { assert t == [t[0], t[1]]; }
    if Wrapped(t) && |t| == 1 { assert t == [t[0]]; }
  }

  lemma CategoriesRead(fields: seq<Field>)
    ensures var y := Values(fields, map[]);
            var category := Get(y, "category");
            var categories :=
              if "categories" in y && y["categories"].Arr? then Texts(y["categories"].items)
              else if category.Some? && Truthy(category.value) then [category.value]
              else [];
            CategoriesMean(Under(fields, "categories"), Under(fields, "category"), category, Some(categories))
  {
    hide Values, Under, MeansList, Means, MeansText, Truthy, Counts;
    KeyRead(fields, "categories");
    CountsRead(fields, "category");
  }

  /** Reading the values of a tree gives a manifest just when it names a skill, and every part is what the tree says. */
  lemma ManifestRead(fields: seq<Field>)
    ensures var m := ReadManifest(Values(fields, map[]));
            (m.Some? <==> Counts(Under(fields, "name"))) && (m.Some? ==> ManifestMeans(fields, m.value))
  {
    hide Values, Under, MeansList, Means, MeansText, MeansOr, MeansTrue, Counts, Truthy, OrElse, GatesMean, RequirementsMean,
         LocalesMean, CategoriesMean, ParseRequires, ParseConfigRequirements, ParseLocalizedMetadata;
    CountsRead(fields, "name");
    KeyRead(fields, "name");
    OrRead(fields, "description", "");
    KeyRead(fields, "triggers");
    KeyRead(fields, "tools");
    KeyRead(fields, "category");
    CategoriesRead(fields);
    GatesRead(fields);
    AlwaysRead(fields);
    OrRead(fields, "version", "0.0.0");
    KeyRead(fields, "author");
    OrRead(fields, "license", "UNLICENSED");
    KeyRead(fields, "platforms");
    RequirementsRead(fields);
    KeyRead(fields, "updated_at");
    LocalesRead(fields);
    KeyRead(fields, "content_hash");
  }

  /**
   The reading law: for every tree of clean one-line fields, whatever its keys, and all trimmed instructions, the
   file is a skill exactly if something that counts stands under `name`, and then every part of its manifest is
   what stands under the part's own key.
   */
  lemma FileMeans(fields: seq<Field>, instructions: string)
    requires fields != [] && CleanFields(fields) && OneLineFields(fields) && Trimmed(instructions)
    ensures var p := Parsed(FileText(FieldLines("", fields), instructions));
            && (p.Some? <==> Counts(Under(fields, "name")))
            && (p.Some? ==> ManifestMeans(fields, p.value.manifest) && p.value.instructions == ExtractLocalized(instructions))
  {
    hide SplitFrontMatter, Read, ReadManifest, ExtractLocalized, FieldLines, FileText, Values, ManifestMeans, Counts, Under;
    PrintedReadsBack(fields, instructions);
    ManifestRead(fields);
  }

  /** A text that does not begin with three dashes, or has none behind them, is no skill file. */
  lemma NoFrontMatter(content: string)
    requires var t := Trim(content); |t| < 3 || t[..3] != "---" || forall i: nat :: 3 <= i ==> !MatchesAt(t, "---", i)
    ensures Parsed(content).None?
  {
    hide Trim, ReadManifest, Read, ExtractLocalized;
    var t := Trim(content);
    IndexOfSome(t, "---", 3);
  }

  /** A nested level is read at the smallest indentation above zero of its lines. */
  lemma {:induction false} LeastIndent(lines: seq<string>)
    ensures MinIndent(lines) == -1 <==> forall i :: 0 <= i < |lines| ==> Indent(lines[i]) == 0
    ensures forall i :: 0 <= i < |lines| ==> Indent(lines[i]) == 0 || MinIndent(lines) <= Indent(lines[i])
    ensures MinIndent(lines) > 0 ==> exists i :: 0 <= i < |lines| && Indent(lines[i]) == MinIndent(lines)
  {
    hide Indent;
    if lines != [] {
      LeastIndent(lines[1..]);
      assert forall i :: 0 < i < |lines| ==> lines[i] == lines[1..][i - 1];
      if MinIndent(lines[1..]) > 0 {
        var i :| 0 <= i < |lines[1..]| && Indent(lines[1..][i]) == MinIndent(lines[1..]);
        assert lines[i + 1] == lines[1..][i];
      }
    }
  }

  // ---- Lines that say nothing ----

  /** Where a key is looked for, a line at another indentation, without a colon, or that begins with one is passed over. */
  lemma PassedOver(line: string, rest: seq<string>, base: int, top: bool, found: map<string, Yaml>)
    requires Indent(line) != base || ':' !in Trim(line) || Trim(line)[0] == ':'
    ensures Read([line] + rest, base, top, found) == Read(rest, base, top, found)
  {
    NoColonNoKey(line, base);
    ReadStep([line] + rest, base, top, found);
    hide ReadKey, Read, Trim, Indent;
    assert ([line] + rest)[1..] == rest;
  }

  lemma NoColonNoKey(line: string, base: int)
    requires Indent(line) != base || ':' !in Trim(line) || Trim(line)[0] == ':'
    ensures ReadKey(line, base).None?
  {
    hide Trim, Indent;
    var t := Trim(line);
    IndexOfSome(t, ":", 0);
    forall i: nat ensures MatchesAt(t, ":", i) <==> i < |t| && t[i] == ':' {
      if i < |t| { assert t[i..i + 1] == [t[i]]; }
    }
    if t != "" && t[0] == ':' { IndexOfFirst(t, ":", 0, 0); }
  }

  /** An empty line or a comment. */
  predicate SaysNothing(line: string) {
    Trim(line) == "" || Trim(line)[0] == '#'
  }

  lemma InsertFirst(first: string, a: seq<string>, line: string, b: seq<string>)
    ensures ([first] + a + b)[1..] == a + b && ([first] + a + [line] + b)[1..] == a + [line] + b
    ensures ([first] + a + b)[0] == ([first] + a + [line] + b)[0] == first
  {
  }

  lemma {:induction false} LengthAround(a: seq<string>, line: string, b: seq<string>, base: int)
    requires SaysNothing(line)
    ensures var n := BlockLength(a + b, base, true);
            BlockLength(a + [line] + b, base, true) == if n < |a| then n else n + 1
  {
    hide Trim, Indent;
    if a == [] {
      assert a + b == b && a + [line] + b == [line] + b && ([line] + b)[1..] == b;
    } else {
      InsertFirst(a[0], a[1..], line, b);
      assert [a[0]] + a[1..] == a;
      LengthAround(a[1..], line, b, base);
    }
  }

  lemma {:induction false} KeptAround(a: seq<string>, line: string, b: seq<string>)
    requires SaysNothing(line)
    ensures Kept(a + [line] + b, true) == Kept(a + b, true)
  {
    hide Trim, Indent;
    if a == [] {
      assert a + b == b && a + [line] + b == [line] + b && ([line] + b)[1..] == b;
    } else {
      InsertFirst(a[0], a[1..], line, b);
      assert [a[0]] + a[1..] == a;
      KeptAround(a[1..], line, b);
    }
  }

  /** A block that ends before the line, and one that holds it. */
  lemma BlockAround(a: seq<string>, line: string, b: seq<string>, base: int)
    requires SaysNothing(line)
    ensures var n := BlockLength(a + b, base, true);
            if n < |a| then
              && BlockLength(a + [line] + b, base, true) == n
              && (a + [line] + b)[..n] == (a + b)[..n]
              && (a + b)[n..] == a[n..] + b && (a + [line] + b)[n..] == a[n..] + [line] + b
            else
              && BlockLength(a + [line] + b, base, true) == n + 1
              && Kept((a + [line] + b)[..n + 1], true) == Kept((a + b)[..n], true)
              && (a + [line] + b)[n + 1..] == (a + b)[n..]
  {
    hide Trim, Indent, BlockLength, Kept;
    LengthAround(a, line, b, base);
    var n := BlockLength(a + b, base, true);
    if n >= |a| {
      var c := b[..n - |a|];
      assert (a + b)[..n] == a + c && (a + [line] + b)[..n + 1] == a + [line] + c;
      KeptAround(a, line, c);
    }
  }

  /** An empty line or a comment line anywhere in the front matter changes nothing that is read. */
  lemma {:induction false} CommentsChangeNothing(a: seq<string>, line: string, b: seq<string>, base: int,
                                                       found: map<string, Yaml>)
    requires SaysNothing(line)
    ensures Read(a + [line] + b, base, true, found) == Read(a + b, base, true, found)
    decreases |a|
  {
    hide *;
    if a == [] {
      FirstSaysNothing(line, b, base, found);
      assert a + [line] + b == [line] + b && a + b == b;
    } else {
      assert [a[0]] + a[1..] == a;
      ReadFirst(a[0], a[1..] + b, base, found);
      ReadFirst(a[0], a[1..] + [line] + b, base, found);
      assert [a[0]] + (a[1..] + b) == a + b && [a[0]] + (a[1..] + [line] + b) == a + [line] + b;
      var key := ReadKey(a[0], base);
      if key.None? {
        CommentsChangeNothing(a[1..], line, b, base, found);
      } else if key.value.value != "" {
        CommentsChangeNothing(a[1..], line, b, base, found[key.value.key := CoerceScalar(key.value.value)]);
      } else {
        BlockAround(a[1..], line, b, base);
        var rest := a[1..] + b;
        var n := BlockLength(rest, base, true);
        if n < |a[1..]| {
          CommentsChangeNothing(a[1..][n..], line, b, base, found[key.value.key := BlockValue(Kept(rest[..n], true))]);
        }
      }
    }
  }

  lemma FirstSaysNothing(line: string, b: seq<string>, base: int, found: map<string, Yaml>)
    requires SaysNothing(line)
    ensures Read([line] + b, base, true, found) == Read(b, base, true, found)
  {
    ReadStep([line] + b, base, true, found);
    hide Trim, Indent, Read;
    assert ([line] + b)[1..] == b;
  }

  lemma ReadFirst(first: string, rest: seq<string>, base: int, found: map<string, Yaml>)
    ensures var key := ReadKey(first, base);
            Read([first] + rest, base, true, found) ==
            if key.None? then Read(rest, base, true, found)
            else if key.value.value != "" then Read(rest, base, true, found[key.value.key := CoerceScalar(key.value.value)])
            else
              var n := BlockLength(rest, base, true);
              Read(rest[n..], base, true, found[key.value.key := BlockValue(Kept(rest[..n], true))])
  {
    hide *;
    var lines := [first] + rest;
    ReadStep(lines, base, true, found);
    assert lines[1..] == rest && lines[0] == first;
    var n := BlockLength(rest, base, true);
    assert n <= |rest| by { BlockFits(rest, base); }
    assert lines[1 + n..] == rest[n..] && lines[1..1 + n] == rest[..n];
  }

  lemma BlockFits(lines: seq<string>, base: int)
    ensures BlockLength(lines, base, true) <= |lines|
  {
  }
}
