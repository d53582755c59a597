/**
 Instructions with locale blocks (packages/core/src/skill-manifest.ts:311-332): every block's text comes back under
 its own locale, in order, and the rest is left as the default instructions.
 */
module LocaleBlocks {
  import opened Options
  import opened Text
  import opened SkillLocales

  /** The locale of a block, its text, and the white space within its two markers. */
  datatype Block = Block(locale: string, body: string, gaps: seq<string>)

  /** Text, then blocks with text behind each. */
  datatype Doc = End(plain: string) | More(plain: string, block: Block, rest: Doc)

  function Marker(before: string, name: string, after: string): string {
    "<!--" + before + name + after + "-->"
  }

  function OpenMark(b: Block): string
    requires |b.gaps| == 4
  {
    Marker(b.gaps[0], "i18n:" + b.locale, b.gaps[1])
  }

  function CloseMark(b: Block): string
    requires |b.gaps| == 4
  {
    Marker(b.gaps[2], "/i18n:" + b.locale, b.gaps[3])
  }

  function Written(b: Block): string
    requires |b.gaps| == 4
  {
    OpenMark(b) + b.body + CloseMark(b)
  }

  /** No comment starts in the text. */
  predicate Calm(s: string) { forall i: nat :: i < |s| ==> !MatchesAt(s, "<!--", i) }

  predicate BlockFits(b: Block) {
    && (b.locale == "en" || b.locale == "ko") && Calm(b.body)
    && |b.gaps| == 4 && AllSpace(b.gaps[0]) && AllSpace(b.gaps[1]) && AllSpace(b.gaps[2]) && AllSpace(b.gaps[3])
  }

  predicate DocFits(d: Doc) {
    Calm(d.plain) && (d.More? ==> BlockFits(d.block) && DocFits(d.rest))
  }

  function DocText(d: Doc): string
    requires DocFits(d)
  {
    match d
    case End(plain) => plain
    case More(plain, block, rest) => plain + Written(block) + DocText(rest)
  }

  /** The document without the blocks of a locale. */
  function Without(d: Doc, locale: string): Doc {
    match d
    case End(plain) => d
    case More(plain, block, rest) =>
      var r := Without(rest, locale);
      if block.locale == locale then (if r.End? then End(plain + r.plain) else More(plain + r.plain, r.block, r.rest))
      else More(plain, block, r)
  }

  /** The texts of the blocks of a locale, in order. */
  function Bodies(d: Doc, locale: string): seq<string> {
    match d
    case End(_) => []
    case More(_, block, rest) => (if block.locale == locale then [Trim(block.body)] else []) + Bodies(rest, locale)
  }

  // ---- Markers ----

  lemma {:induction false} SkipsExactly(s: string, i: nat, pad: string)
    requires i + |pad| < |s| && s[i..i + |pad|] == pad && AllSpace(pad) && !IsSpace(s[i + |pad|])
    ensures SkipSpaces(s, i) == i + |pad|
    decreases |pad|
  {
    hide IsSpace;
    if pad != "" {
      assert s[i] == s[i..i + |pad|][0];
      assert s[i + 1..i + 1 + |pad[1..]|] == s[i..i + |pad|][1..];
      SkipsExactly(s, i + 1, pad[1..]);
    }
  }

  lemma PieceAt(s: string, i: nat, m: string, a: nat, t: string)
    requires i + |m| <= |s| && s[i..i + |m|] == m && a + |t| <= |m| && m[a..a + |t|] == t
    ensures s[i + a..i + a + |t|] == t && MatchesAt(s, t, i + a)
    ensures forall k :: 0 <= k < |t| ==> s[i + a + k] == t[k]
  {
    forall k | 0 <= k < |t| ensures s[i + a + k] == t[k] {
      assert s[i..i + |m|][a + k] == s[i + (a + k)] && m[a..a + |t|][k] == m[a + k];
    }
  }

  /** Where the parts of a marker stand. */
  lemma MarkerParts(before: string, name: string, after: string)
    ensures var m := Marker(before, name, after);
            var x := 4 + |before|;
            var y := x + |name|;
            var z := y + |after|;
            && |m| == z + 3 && m[0..4] == "<!--" && m[4..x] == before && m[x..y] == name && m[y..z] == after
            && m[z..z + 3] == "-->"
  {
  }

  /** A name that does not start with white space. */
  predicate Solid(name: string) { name != "" && !IsSpace(name[0]) }

  lemma MarkerPlaces(s: string, i: nat, before: string, name: string, after: string)
    requires Solid(name)
    requires var m := Marker(before, name, after); i + |m| <= |s| && s[i..i + |m|] == m
    ensures var x := i + 4 + |before|;
            var y := x + |name|;
            var z := y + |after|;
            && z + 3 == i + |Marker(before, name, after)| && MatchesAt(s, "<!--", i) && s[i + 4..x] == before && !IsSpace(s[x])
            && MatchesAt(s, name, x) && s[y..z] == after && s[z] == '-' && MatchesAt(s, "-->", z)
  {
    hide IsSpace, Marker, MatchesAt;
    var m := Marker(before, name, after);
    var x := 4 + |before|;
    var y := x + |name|;
    var z := y + |after|;
    MarkerParts(before, name, after);
    PieceAt(s, i, m, 0, "<!--");
    PieceAt(s, i, m, 4, before);
    PieceAt(s, i, m, x, name);
    PieceAt(s, i, m, y, after);
    PieceAt(s, i, m, z, "-->");
    assert s[i + x + 0] == name[0] && s[i + z + 0] == "-->"[0] == '-';
  }

  /** A marker is found where it is written, under its own name. */
  lemma MarkerThere(s: string, i: nat, before: string, name: string, after: string)
    requires AllSpace(before) && AllSpace(after) && Solid(name)
    requires var m := Marker(before, name, after); i + |m| <= |s| && s[i..i + |m|] == m
    ensures MarkerEnd(s, i, name) == Some(i + |Marker(before, name, after)|)
  {
    MarkerPlaces(s, i, before, name, after);
    DashSolid();
    hide IsSpace, Marker, AllSpace, MatchesAt, Solid;
    SkipsExactly(s, i + 4, before);
    SkipsExactly(s, i + 4 + |before| + |name|, after);
  }

  lemma DashSolid()
    ensures !IsSpace('-')
  {
  }

  /** A marker of another name is none. */
  lemma OtherMarker(s: string, i: nat, before: string, name: string, after: string, other: string)
    requires AllSpace(before) && Solid(name)
    requires var m := Marker(before, name, after); i + |m| <= |s| && s[i..i + |m|] == m
    requires |other| <= |name| && name[..|other|] != other
    ensures MarkerEnd(s, i, other).None?
  {
    hide IsSpace, Marker, AllSpace;
    var m := Marker(before, name, after);
    var x := 4 + |before|;
    MarkerParts(before, name, after);
    PieceAt(s, i, m, 4, before);
    PieceAt(s, i, m, x, name);
    assert s[i + x + 0] == name[0];
    SkipsExactly(s, i + 4, before);
    assert s[i + x..i + x + |other|] == s[i + x..i + x + |name|][..|other|];
  }

  lemma {:induction false} SkippedSpaces(s: string, i: nat)
    requires i <= |s|
    ensures AllSpace(s[i..SkipSpaces(s, i)])
    decreases |s| - i
  {
    hide IsSpace;
    if i < |s| && IsSpace(s[i]) {
      SkippedSpaces(s, i + 1);
      var r := SkipSpaces(s, i);
      assert s[i..r] == [s[i]] + s[i + 1..r];
    }
  }

  /** And a marker is found nowhere else: what is found is written like one. */
  lemma MarkerOnly(s: string, i: nat, name: string) returns (before: string, after: string)
    requires MarkerEnd(s, i, name).Some?
    ensures AllSpace(before) && AllSpace(after) && s[i..MarkerEnd(s, i, name).value] == Marker(before, name, after)
  {
    hide IsSpace, AllSpace, SkipSpaces;
    var a := SkipSpaces(s, i + 4);
    var b := SkipSpaces(s, a + |name|);
    before, after := s[i + 4..a], s[a + |name|..b];
    SkippedSpaces(s, i + 4);
    SkippedSpaces(s, a + |name|);
    assert s[i..b + 3] == s[i..i + 4] + s[i + 4..a] + s[a..a + |name|] + s[a + |name|..b] + s[b..b + 3];
  }

  lemma {:induction false} NearestMarker(s: string, j: nat, name: string, k: nat)
    requires j <= k && MarkerEnd(s, k, name).Some?
    ensures NextMarker(s, j, name).Some? && NextMarker(s, j, name).value <= k
    decreases k - j
  {
    hide MarkerEnd;
    if MarkerEnd(s, j, name).None? {
      assert j < |s| by { MarkerInText(s, k, name); }
      NearestMarker(s, j + 1, name, k);
    }
  }

  lemma MarkerInText(s: string, k: nat, name: string)
    requires MarkerEnd(s, k, name).Some?
    ensures k < |s|
  {
  }

  /** A block reaches from its opening marker to the nearest closing one, and is none without. */
  lemma BlockOnly(s: string, i: nat, locale: string)
    ensures var block := BlockAt(s, i, locale);
            var open, name := MarkerEnd(s, i, "i18n:" + locale), "/i18n:" + locale;
            && (block.None? <==> open.None? || forall k :: open.value <= k ==> MarkerEnd(s, k, name).None?)
            && (block.Some? ==>
                  && open == Some(block.value.bodyStart) && MarkerEnd(s, block.value.bodyEnd, name) == Some(block.value.end)
                  && forall k :: block.value.bodyStart <= k < block.value.bodyEnd ==> MarkerEnd(s, k, name).None?)
  {
    hide MarkerEnd;
    var open, name := MarkerEnd(s, i, "i18n:" + locale), "/i18n:" + locale;
    if open.Some? {
      forall k: nat | open.value <= k && MarkerEnd(s, k, name).Some?
        ensures NextMarker(s, open.value, name).Some? && NextMarker(s, open.value, name).value <= k
      {
        NearestMarker(s, open.value, name, k);
      }
    }
  }

  lemma NoMarker(s: string, i: nat, name: string)
    requires !MatchesAt(s, "<!--", i)
    ensures MarkerEnd(s, i, name).None?
  {
  }

  lemma CommentChars(s: string, i: nat)
    ensures MatchesAt(s, "<!--", i) <==> i + 4 <= |s| && s[i] == '<' && s[i + 1] == '!' && s[i + 2] == '-' && s[i + 3] == '-'
  {
    if i + 4 <= |s| { assert s[i..i + 4] == [s[i], s[i + 1], s[i + 2], s[i + 3]]; }
  }

  /** In a calm stretch that ends where a marker begins, or at the end, no comment starts. */
  lemma CalmStretch(s: string, lo: nat, hi: nat, i: nat)
    requires lo <= i < hi <= |s| && Calm(s[lo..hi]) && (hi == |s| || s[hi] == '<')
    ensures !MatchesAt(s, "<!--", i)
  {
    CommentChars(s, i);
    CommentChars(s[lo..hi], i - lo);
    hide MatchesAt;
    assert !MatchesAt(s[lo..hi], "<!--", i - lo);
  }

  /** No comment starts within a marker behind its first character. */
  lemma MarkerInside(s: string, i: nat, before: string, name: string, after: string, k: nat)
    requires AllSpace(before) && AllSpace(after) && '<' !in name
    requires var m := Marker(before, name, after); i + |m| <= |s| && s[i..i + |m|] == m
    requires i < k < i + |Marker(before, name, after)|
    ensures !MatchesAt(s, "<!--", k)
  {
    var m := Marker(before, name, after);
    assert s[k] == m[k - i] by { assert s[i..i + |m|][k - i] == s[k]; }
    BracketFirst(before, name, after, k - i);
    CommentChars(s, k);
  }

  lemma BracketFirst(before: string, name: string, after: string, k: nat)
    requires AllSpace(before) && AllSpace(after) && '<' !in name && 0 < k < |Marker(before, name, after)|
    ensures Marker(before, name, after)[k] != '<'
  {
    var m := Marker(before, name, after);
    var x := 4 + |before|;
    var y := x + |name|;
    var z := y + |after|;
    if k < 4 {
      assert m[k] == "<!--"[k];
    } else if k < x {
      assert m[k] == before[k - 4];
    } else if k < y {
      assert m[k] == name[k - x];
    } else if k < z {
      assert m[k] == after[k - y];
    } else {
      assert m[k] == "-->"[k - z];
    }
  }

  // ---- Taking blocks out ----

  /** The text without the blocks of a locale. */
  function KeptText(d: Doc, locale: string): string
    requires DocFits(d)
  {
    match d
    case End(plain) => plain
    case More(plain, block, rest) => plain + (if block.locale == locale then "" else Written(block)) + KeptText(rest, locale)
  }

  /** Where no block starts, the text is kept. */
  lemma {:induction false} KeepStretch(s: string, lo: nat, hi: nat, locale: string)
    requires lo <= hi <= |s| && forall i :: lo <= i < hi ==> BlockAt(s, i, locale).None?
    ensures var rest := Extract(s, hi, locale); Extract(s, lo, locale) == Extracted(s[lo..hi] + rest.kept, rest.bodies)
    decreases hi - lo
  {
    hide BlockAt;
    if lo < hi {
      KeepStretch(s, lo + 1, hi, locale);
      var rest := Extract(s, hi, locale);
      assert [s[lo]] + (s[lo + 1..hi] + rest.kept) == s[lo..hi] + rest.kept;
    }
  }

  lemma NoCommentNoBlock(s: string, i: nat, locale: string)
    requires !MatchesAt(s, "<!--", i)
    ensures BlockAt(s, i, locale).None?
  {
    NoMarker(s, i, "i18n:" + locale);
  }

  lemma CalmKept(s: string, lo: nat, hi: nat, locale: string)
    requires lo <= hi <= |s| && Calm(s[lo..hi]) && (hi == |s| || s[hi] == '<')
    ensures forall i :: lo <= i < hi ==> BlockAt(s, i, locale).None?
  {
    forall i | lo <= i < hi ensures BlockAt(s, i, locale).None? {
      CalmStretch(s, lo, hi, i);
      NoCommentNoBlock(s, i, locale);
    }
  }

  lemma NamesSolid(locale: string)
    requires locale == "en" || locale == "ko"
    ensures Solid("i18n:" + locale) && Solid("/i18n:" + locale) && '<' !in "i18n:" + locale && '<' !in "/i18n:" + locale
  {
    assert ("i18n:" + locale)[0] == 'i' && ("/i18n:" + locale)[0] == '/';
  }

  lemma OtherNames(locale: string, other: string)
    requires (locale == "en" || locale == "ko") && (other == "en" || other == "ko") && locale != other
    ensures var o := "i18n:" + other;
            && |o| <= |"i18n:" + locale| && ("i18n:" + locale)[..|o|] != o
            && |o| <= |"/i18n:" + locale| && ("/i18n:" + locale)[..|o|] != o
  {
    assert ("i18n:" + locale)[5] == locale[0] && ("i18n:" + other)[5] == other[0];
    assert ("/i18n:" + locale)[0] == '/' && ("i18n:" + other)[0] == 'i';
  }

  /** The positions of a written block. */
  lemma BlockPlaces(s: string, p: nat, b: Block)
    requires BlockFits(b) && p + |Written(b)| <= |s| && s[p..p + |Written(b)|] == Written(b)
    ensures var body := p + |OpenMark(b)|;
            var close := body + |b.body|;
            && close + |CloseMark(b)| == p + |Written(b)|
            && s[p..body] == OpenMark(b) && s[body..close] == b.body && s[close..close + |CloseMark(b)|] == CloseMark(b)
            && s[close] == '<'
  {
    var w := Written(b);
    var m, n := |OpenMark(b)|, |OpenMark(b)| + |b.body|;
    assert w[0..m] == OpenMark(b) && w[m..n] == b.body && w[n..n + |CloseMark(b)|] == CloseMark(b);
    hide Written, OpenMark, MatchesAt;
    PieceAt(s, p, w, 0, OpenMark(b));
    PieceAt(s, p, w, m, b.body);
    PieceAt(s, p, w, n, CloseMark(b));
    assert s[p + n + 0] == CloseMark(b)[0] == '<';
  }

  /** A written block is found under its locale. */
  lemma BlockFound(s: string, p: nat, b: Block)
    requires BlockFits(b) && p + |Written(b)| <= |s| && s[p..p + |Written(b)|] == Written(b)
    ensures var body := p + |OpenMark(b)|;
            BlockAt(s, p, b.locale) == Some(Span(body, body + |b.body|, p + |Written(b)|))
    ensures s[p + |OpenMark(b)|..p + |OpenMark(b)| + |b.body|] == b.body
  {
    hide Calm, MatchesAt, AllSpace, Marker, MarkerEnd, Solid;
    var body := p + |OpenMark(b)|;
    var close := body + |b.body|;
    BlockPlaces(s, p, b);
    NamesSolid(b.locale);
    MarkerThere(s, p, b.gaps[0], "i18n:" + b.locale, b.gaps[1]);
    MarkerThere(s, close, b.gaps[2], "/i18n:" + b.locale, b.gaps[3]);
    forall i | body <= i < close ensures MarkerEnd(s, i, "/i18n:" + b.locale).None? {
      CalmStretch(s, body, close, i);
      NoMarker(s, i, "/i18n:" + b.locale);
    }
    NextThere(s, body, close, "/i18n:" + b.locale);
  }

  lemma {:induction false} NextThere(s: string, j: nat, at: nat, name: string)
    requires j <= at <= |s| && MarkerEnd(s, at, name).Some? && forall i :: j <= i < at ==> MarkerEnd(s, i, name).None?
    ensures NextMarker(s, j, name) == Some(at)
    decreases at - j
  {
    hide MarkerEnd;
    if j < at { NextThere(s, j + 1, at, name); }
  }

  /** Within a written block no block of the other locale starts. */
  lemma BlockHidden(s: string, p: nat, b: Block, locale: string)
    requires BlockFits(b) && p + |Written(b)| <= |s| && s[p..p + |Written(b)|] == Written(b)
    requires (locale == "en" || locale == "ko") && locale != b.locale
    ensures forall i :: p <= i < p + |Written(b)| ==> BlockAt(s, i, locale).None?
  {
    hide Calm, MatchesAt, AllSpace, Marker, MarkerEnd, Solid, BlockAt, Written;
    var body := p + |OpenMark(b)|;
    var close := body + |b.body|;
    BlockPlaces(s, p, b);
    MarkHidden(s, p, b.gaps[0], "i18n:" + b.locale, b.gaps[1], b.locale, locale);
    CalmKept(s, body, close, locale);
    MarkHidden(s, close, b.gaps[2], "/i18n:" + b.locale, b.gaps[3], b.locale, locale);
  }

  lemma MarkHidden(s: string, p: nat, before: string, name: string, after: string, locale: string, other: string)
    requires AllSpace(before) && AllSpace(after) && (name == "i18n:" + locale || name == "/i18n:" + locale)
    requires (locale == "en" || locale == "ko") && (other == "en" || other == "ko") && locale != other
    requires var m := Marker(before, name, after); p + |m| <= |s| && s[p..p + |m|] == m
    ensures forall i :: p <= i < p + |Marker(before, name, after)| ==> BlockAt(s, i, other).None?
  {
    hide MatchesAt, AllSpace, Marker, MarkerEnd, Solid;
    NamesSolid(locale);
    OtherNames(locale, other);
    OtherMarker(s, p, before, name, after, "i18n:" + other);
    forall i | p < i < p + |Marker(before, name, after)| ensures BlockAt(s, i, other).None? {
      MarkerInside(s, p, before, name, after, i);
      NoCommentNoBlock(s, i, other);
    }
  }

  lemma BlockStep(s: string, p: nat, b: Block, locale: string)
    requires BlockFits(b) && p + |Written(b)| <= |s| && s[p..p + |Written(b)|] == Written(b)
    requires locale == "en" || locale == "ko"
    ensures var rest := Extract(s, p + |Written(b)|, locale);
            Extract(s, p, locale) ==
            if b.locale == locale then Extracted(rest.kept, [Trim(b.body)] + rest.bodies)
            else Extracted(Written(b) + rest.kept, rest.bodies)
  {
    hide Calm, BlockAt, Written, Trim;
    if b.locale == locale {
      BlockFound(s, p, b);
    } else {
      BlockHidden(s, p, b, locale);
      KeepStretch(s, p, p + |Written(b)|, locale);
    }
  }

  /** Taking the blocks of a locale out of a document keeps everything else and gives their texts in order. */
  lemma {:induction false} ExtractDoc(s: string, p: nat, d: Doc, locale: string)
    requires p <= |s| && DocFits(d) && s[p..] == DocText(d) && (locale == "en" || locale == "ko")
    ensures Extract(s, p, locale) == Extracted(KeptText(d, locale), Bodies(d, locale))
    decreases d
  {
    hide Calm, BlockAt, Written, Trim, Extract;
    var hi := p + |d.plain|;
    assert s[p..hi] == s[p..][..|d.plain|] == d.plain;
    match d
    case End(plain) =>
      CalmKept(s, p, hi, locale);
      KeepStretch(s, p, hi, locale);
      NothingExtracted(s, locale);
    case More(plain, b, rest) =>
      DocPlaces(s, p, plain, b, DocText(rest));
      CalmKept(s, p, hi, locale);
      KeepStretch(s, p, hi, locale);
      ExtractDoc(s, hi + |Written(b)|, rest, locale);
      BlockStep(s, hi, b, locale);
      PutTogether(plain, b, rest, locale);
  }

  lemma NothingExtracted(s: string, locale: string)
    ensures Extract(s, |s|, locale) == Extracted("", [])
  {
  }

  lemma PutTogether(plain: string, b: Block, rest: Doc, locale: string)
    requires BlockFits(b) && DocFits(rest) && Calm(plain)
    ensures KeptText(More(plain, b, rest), locale) ==
            plain + if b.locale == locale then KeptText(rest, locale) else Written(b) + KeptText(rest, locale)
    ensures Bodies(More(plain, b, rest), locale) ==
            if b.locale == locale then [Trim(b.body)] + Bodies(rest, locale) else Bodies(rest, locale)
  {
    hide Written, Trim;
    assert plain + "" + KeptText(rest, locale) == plain + KeptText(rest, locale);
    assert plain + Written(b) + KeptText(rest, locale) == plain + (Written(b) + KeptText(rest, locale));
  }

  lemma DocPlaces(s: string, p: nat, plain: string, b: Block, rest: string)
    requires p <= |s| && BlockFits(b) && s[p..] == plain + Written(b) + rest
    ensures var hi := p + |plain|;
            var end := hi + |Written(b)|;
            && end <= |s| && s[hi..end] == Written(b) && s[end..] == rest && s[hi] == '<'
  {
    var hi := |plain|;
    var end := hi + |Written(b)|;
    var t := s[p..];
    assert t[hi..end] == Written(b) && t[end..] == rest;
    assert s[p + hi..p + end] == t[hi..end] && s[p + end..] == t[end..];
    assert Written(b)[0] == '<';
    assert s[p + hi] == s[p + hi..p + end][0];
  }

  // ---- Trimming in between ----

  /** The document with the white space at its end taken off. */
  function TailTrimmed(d: Doc): Doc {
    match d
    case End(plain) => End(TrimEnd(plain))
    case More(plain, block, rest) => More(plain, block, TailTrimmed(rest))
  }

  /** The document with the white space at both ends taken off. */
  function OuterTrimmed(d: Doc): Doc {
    match d
    case End(plain) => End(Trim(plain))
    case More(plain, block, rest) => More(TrimStart(plain), block, TailTrimmed(rest))
  }

  lemma {:induction false} StartPart(s: string) returns (pad: string)
    ensures s == pad + TrimStart(s) && AllSpace(pad)
    ensures TrimStart(s) == "" || !IsSpace(TrimStart(s)[0])
  {
    pad := "";
    if s != "" && IsSpace(s[0]) {
      var more := StartPart(s[1..]);
      pad := [s[0]] + more;
    }
  }

  lemma {:induction false} EndPart(s: string) returns (pad: string)
    ensures s == TrimEnd(s) + pad && AllSpace(pad)
    ensures var t := TrimEnd(s); t == "" || !IsSpace(t[|t| - 1])
  {
    pad := "";
    if s != "" && IsSpace(s[|s| - 1]) {
      var more := EndPart(s[..|s| - 1]);
      pad := more + [s[|s| - 1]];
    }
  }

  /** White space around a text is no matter to trimming. */
  lemma TrimOuter(before: string, s: string, after: string)
    requires AllSpace(before) && AllSpace(after)
    ensures Trim(before + s + after) == Trim(s)
  {
    var b, core, a := Pieces(s);
    hide Trim;
    TrimPadded(before + b, core, a + after);
    assert (before + b) + core + (a + after) == before + s + after;
  }

  lemma CalmPart(s: string, a: nat, b: nat)
    requires a <= b <= |s| && Calm(s)
    ensures Calm(s[a..b])
  {
    forall i: nat | i < b - a ensures !MatchesAt(s[a..b], "<!--", i) {
      CommentChars(s[a..b], i);
      CommentChars(s, a + i);
    }
  }

  lemma StartCalm(s: string)
    requires Calm(s)
    ensures Calm(TrimStart(s))
  {
    var pad := StartPart(s);
    CalmPart(s, |pad|, |s|);
    assert s[|pad|..|s|] == TrimStart(s);
  }

  lemma EndCalm(s: string)
    requires Calm(s)
    ensures Calm(TrimEnd(s))
  {
    var pad := EndPart(s);
    CalmPart(s, 0, |TrimEnd(s)|);
    assert s[0..|TrimEnd(s)|] == TrimEnd(s);
  }

  lemma TrimEndBehind(front: string, s: string)
    requires front != "" && !IsSpace(front[|front| - 1])
    ensures TrimEnd(front + s) == front + TrimEnd(s)
  {
    var pad := EndPart(s);
    assert front + s == (front + TrimEnd(s)) + pad;
    TrimEndPadded(front + TrimEnd(s), pad);
  }

  lemma WrittenEnds(b: Block)
    requires BlockFits(b)
    ensures Written(b) != "" && Written(b)[0] == '<' && Written(b)[|Written(b)| - 1] == '>'
    ensures !IsSpace('<') && !IsSpace('>')
  {
    var n := CloseMark(b);
    assert n[|n| - 1] == '>' && Written(b)[|Written(b)| - 1] == n[|n| - 1];
  }

  /** The tail-trimmed document, its text and what is left of it. */
  lemma {:induction false} TailTrim(d: Doc, front: string, locale: string) returns (pad: string)
    requires DocFits(d) && front != "" && !IsSpace(front[|front| - 1])
    ensures DocFits(TailTrimmed(d)) && TrimEnd(front + DocText(d)) == front + DocText(TailTrimmed(d))
    ensures KeptText(d, locale) == KeptText(TailTrimmed(d), locale) + pad && AllSpace(pad)
    ensures Bodies(TailTrimmed(d), locale) == Bodies(d, locale)
    decreases d
  {
    hide IsSpace, Calm, Written, TrimEnd, AllSpace;
    match d
    case End(plain) =>
      TrimEndBehind(front, plain);
      EndCalm(plain);
      pad := EndPart(plain);
    case More(plain, b, rest) =>
      WrittenEnds(b);
      var longer := front + plain + Written(b);
      pad := TailTrim(rest, longer, locale);
      assert front + (plain + Written(b) + DocText(rest)) == longer + DocText(rest);
      assert front + (plain + Written(b) + DocText(TailTrimmed(rest))) == longer + DocText(TailTrimmed(rest));
      var shown := if b.locale == locale then "" else Written(b);
      var kept := KeptText(TailTrimmed(rest), locale);
      assert plain + shown + (kept + pad) == plain + shown + kept + pad;
  }

  lemma OuterTrim(d: Doc, locale: string)
    requires DocFits(d)
    ensures DocFits(OuterTrimmed(d)) && DocText(OuterTrimmed(d)) == Trim(DocText(d))
    ensures Trim(KeptText(OuterTrimmed(d), locale)) == Trim(KeptText(d, locale))
    ensures Bodies(OuterTrimmed(d), locale) == Bodies(d, locale)
  {
    hide IsSpace, Calm, Written, AllSpace, TrimStart, TrimEnd;
    match d
    case End(plain) =>
      StartCalm(plain);
      EndCalm(TrimStart(plain));
      TrimTwice(plain);
    case More(plain, b, rest) =>
      StartCalm(plain);
      var after := OuterTexts(plain, b, rest, locale);
  }

  lemma OuterTexts(plain: string, b: Block, rest: Doc, locale: string) returns (after: string)
    requires BlockFits(b) && DocFits(rest)
    ensures DocFits(TailTrimmed(rest)) && Bodies(TailTrimmed(rest), locale) == Bodies(rest, locale)
    ensures TrimStart(plain) + Written(b) + DocText(TailTrimmed(rest)) == Trim(plain + Written(b) + DocText(rest))
    ensures var shown := if b.locale == locale then "" else Written(b);
            Trim(TrimStart(plain) + shown + KeptText(TailTrimmed(rest), locale)) == Trim(plain + shown + KeptText(rest, locale))
  {
    hide IsSpace, Calm, Written, AllSpace, TrimStart, TrimEnd, Trim, KeptText, DocText, Bodies, TailTrimmed, DocFits;
    WrittenEnds(b);
    var before := StartPart(plain);
    var core := TrimStart(plain);
    var front := core + Written(b);
    after := TailTrim(rest, front, locale);
    TrimWhole(before, front, DocText(rest));
    assert plain + Written(b) + DocText(rest) == before + (front + DocText(rest));
    var shown := if b.locale == locale then "" else Written(b);
    var x := core + shown + KeptText(TailTrimmed(rest), locale);
    assert plain + shown + KeptText(rest, locale) == before + x + after;
    TrimOuter(before, x, after);
  }

  lemma TrimTwice(s: string)
    ensures Trim(Trim(s)) == Trim(s)
  {
    var b, core, a := Pieces(s);
    TrimTrimmed(core);
  }

  lemma TrimWhole(before: string, front: string, rest: string)
    requires AllSpace(before) && front != "" && !IsSpace(front[0])
    ensures Trim(before + (front + rest)) == TrimEnd(front + rest)
  {
    TrimStartPadded(before, front + rest);
  }

  // ---- Both locales ----

  /** Text put in front of a document. */
  function Before(plain: string, d: Doc): Doc {
    if d.End? then End(plain + d.plain) else More(plain + d.plain, d.block, d.rest)
  }

  lemma BeforeText(plain: string, d: Doc)
    requires DocFits(Before(plain, d))
    ensures DocFits(d) && DocText(Before(plain, d)) == plain + DocText(d)
    ensures forall other :: Bodies(Before(plain, d), other) == Bodies(d, other)
  {
    hide Written;
    var whole := plain + d.plain;
    CalmPart(whole, |plain|, |whole|);
    assert whole[|plain|..|whole|] == d.plain;
    if d.More? {
      assert whole + Written(d.block) + DocText(d.rest) == plain + (d.plain + Written(d.block) + DocText(d.rest));
    }
  }

  /** The text that is left when the blocks of a locale are gone is that of the document without them. */
  lemma {:induction false} WithoutText(d: Doc, locale: string, other: string)
    requires DocFits(d) && DocFits(Without(d, locale)) && locale != other
    ensures DocText(Without(d, locale)) == KeptText(d, locale)
    ensures Bodies(Without(d, locale), other) == Bodies(d, other)
    ensures KeptText(Without(d, locale), other) == PlainText(d) || !BothLocales(d, locale, other)
    decreases d
  {
    hide Written, Trim, Calm;
    if d.More? {
      var r := Without(d.rest, locale);
      if d.block.locale == locale {
        assert Without(d, locale) == Before(d.plain, r);
        BeforeText(d.plain, r);
        BeforeKept(d.plain, r, other);
      }
      WithoutText(d.rest, locale, other);
    }
  }

  lemma BeforeKept(plain: string, d: Doc, locale: string)
    requires DocFits(Before(plain, d)) && DocFits(d)
    ensures KeptText(Before(plain, d), locale) == plain + KeptText(d, locale)
  {
    hide Written;
    if d.More? {
      var shown := if d.block.locale == locale then "" else Written(d.block);
      assert (plain + d.plain) + shown + KeptText(d.rest, locale) == plain + (d.plain + shown + KeptText(d.rest, locale));
    }
  }

  predicate BothLocales(d: Doc, a: string, b: string) {
    d.More? ==> (d.block.locale == a || d.block.locale == b) && BothLocales(d.rest, a, b)
  }

  lemma {:induction false} FitLocales(d: Doc)
    requires DocFits(d)
    ensures BothLocales(d, "en", "ko")
    decreases d
  {
    if d.More? { FitLocales(d.rest); }
  }

  /** All text outside the blocks. */
  function PlainText(d: Doc): string {
    match d
    case End(plain) => plain
    case More(plain, _, rest) => plain + PlainText(rest)
  }

  /** The texts with an empty line between, if there are any. */
  function Stacked(bodies: seq<string>): Option<string> {
    if bodies == [] then None
    else if |bodies| == 1 then Some(bodies[0])
    else Some(Stacked(bodies[..|bodies| - 1]).value + "\n\n" + bodies[|bodies| - 1])
  }

  lemma {:induction false} StackMore(first: string, rest: seq<string>)
    requires rest != []
    ensures Stacked([first] + rest) == Some(first + "\n\n" + Stacked(rest).value)
    decreases |rest|
  {
    var all := [first] + rest;
    if |rest| == 1 {
      assert all[..1] == [first];
    } else {
      StackMore(first, rest[..|rest| - 1]);
      assert all[..|all| - 1] == [first] + rest[..|rest| - 1];
      var s, last := Stacked(rest[..|rest| - 1]).value, rest[|rest| - 1];
      assert (first + "\n\n" + s) + "\n\n" + last == first + "\n\n" + (s + "\n\n" + last);
    }
  }

  lemma {:induction false} ParagraphsStacked(bodies: seq<string>)
    ensures OneLocale(bodies) == Stacked(bodies)
  {
    if |bodies| > 1 {
      ParagraphsStacked(bodies[1..]);
      StackMore(bodies[0], bodies[1..]);
      assert [bodies[0]] + bodies[1..] == bodies;
    }
  }

  /**
   The texts of all English blocks come back under `en` and those of all Korean blocks under `ko`, trimmed and in
   order with an empty line between, and everything else is the default text.
   */
  lemma LocalesComeBack(d: Doc)
    requires DocFits(d) && DocFits(Without(d, "en"))
    ensures ExtractLocalized(DocText(d)) == Localized(Trim(PlainText(d)), Stacked(Bodies(d, "en")), Stacked(Bodies(d, "ko")))
  {
    hide Extract, Trim, DocFits, DocText, KeptText, Bodies, Stacked, OneLocale, Without, PlainText;
    var text := DocText(d);
    assert text[0..] == text;
    ExtractDoc(text, 0, d, "en");
    var e := Without(d, "en");
    FitLocales(d);
    WithoutText(d, "en", "ko");
    OuterTrim(e, "ko");
    var o := OuterTrimmed(e);
    var left := Trim(DocText(e));
    assert left[0..] == left;
    ExtractDoc(left, 0, o, "ko");
    ParagraphsStacked(Bodies(d, "en"));
    ParagraphsStacked(Bodies(d, "ko"));
  }
}
