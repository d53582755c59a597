/** The JavaScript string operations that the address and SKILL.md parsers rely on. */
module Text {
  /** `s.split(sep)` for a one-character separator. */
  function Split(s: string, sep: char): (parts: seq<string>)
    ensures |parts| >= 1
  {
    if s == "" then [""]
    else
      var rest := Split(s[1..], sep);
      if s[0] == sep then [""] + rest else [[s[0]] + rest[0]] + rest[1..]
  }

  /** `parts.join(sep)` */
  function Join(parts: seq<string>, sep: char): string {
    if parts == [] then ""
    else if |parts| == 1 then parts[0]
    else parts[0] + [sep] + Join(parts[1..], sep)
  }

  lemma {:induction false} SplitOne(a: string, sep: char)
    requires sep !in a
    ensures Split(a, sep) == [a]
  {
    if a != "" {
      SplitOne(a[1..], sep);
      assert [a[0]] + a[1..] == a;
    }
  }

  lemma {:induction false} SplitFirst(a: string, sep: char, b: string)
    requires sep !in a
    ensures Split(a + [sep] + b, sep) == [a] + Split(b, sep)
  {
    var s := a + [sep] + b;
    if a == "" {
      assert s[1..] == b;
    } else {
      SplitFirst(a[1..], sep, b);
      assert s[1..] == a[1..] + [sep] + b;
      assert [a[0]] + a[1..] == a;
    }
  }

  /** Splitting undoes joining when no part contains the separator. */
  lemma {:induction false} SplitJoin(parts: seq<string>, sep: char)
    requires parts != [] && forall i :: 0 <= i < |parts| ==> sep !in parts[i]
    ensures Split(Join(parts, sep), sep) == parts
  {
    if |parts| == 1 {
      SplitOne(parts[0], sep);
    } else {
      SplitJoin(parts[1..], sep);
      SplitFirst(parts[0], sep, Join(parts[1..], sep));
    }
  }

  /** Every part is a piece of the text, the first one at its start, and holds no separator. */
  lemma {:induction false} SplitPiece(s: string, sep: char, i: nat) returns (a: nat, b: nat)
    requires i < |Split(s, sep)|
    ensures a <= b <= |s| && Split(s, sep)[i] == s[a..b] && (i == 0 ==> a == 0) && sep !in Split(s, sep)[i]
  {
    a, b := 0, 0;
    if s != "" {
      var rest := Split(s[1..], sep);
      if i > 0 || s[0] != sep {
        var k := if s[0] == sep then i - 1 else i;
        a, b := SplitPiece(s[1..], sep, k);
        assert s[1..][a..b] == s[a + 1..b + 1];
        if i > 0 { a, b := a + 1, b + 1; } else { b := b + 1; assert s[0..b] == [s[0]] + s[1..b]; }
      }
    }
  }

  lemma {:induction false} JoinSnoc(parts: seq<string>, last: string, sep: char)
    requires parts != []
    ensures Join(parts + [last], sep) == Join(parts, sep) + [sep] + last
  {
    if |parts| > 1 {
      JoinSnoc(parts[1..], last, sep);
      assert (parts + [last])[1..] == parts[1..] + [last];
    } else {
      assert (parts + [last])[1..] == [last];
    }
  }

  lemma {:induction false} JoinConcat(a: seq<string>, b: seq<string>, sep: char)
    requires a != [] && b != []
    ensures Join(a + b, sep) == Join(a, sep) + [sep] + Join(b, sep)
  {
    if |a| == 1 {
      assert (a + b)[1..] == b;
    } else {
      JoinConcat(a[1..], b, sep);
      assert (a + b)[1..] == a[1..] + b;
    }
  }

  // ---- Searching ----

  predicate MatchesAt(s: string, pattern: string, i: nat) {
    i + |pattern| <= |s| && s[i..i + |pattern|] == pattern
  }

  /** `s.indexOf(pattern, from)`, -1 when there is none. */
  function IndexOf(s: string, pattern: string, from: nat): (r: int)
    ensures r == -1 || (from <= r && r + |pattern| <= |s|)
    decreases |s| + 1 - from
  {
    if from > |s| then -1
    else if MatchesAt(s, pattern, from) then from
    else IndexOf(s, pattern, from + 1)
  }

  /** The index found is that of the first match. */
  lemma {:induction false} IndexOfFirst(s: string, pattern: string, from: nat, at: nat)
    requires from <= at && MatchesAt(s, pattern, at)
    requires forall i: nat :: from <= i < at ==> !MatchesAt(s, pattern, i)
    ensures IndexOf(s, pattern, from) == at
    decreases at - from
  {
    if from < at { IndexOfFirst(s, pattern, from + 1, at); }
  }

  /** Something is found exactly when there is a match. */
  lemma {:induction false} IndexOfSome(s: string, pattern: string, from: nat)
    ensures IndexOf(s, pattern, from) >= 0 <==> exists i: nat :: from <= i && MatchesAt(s, pattern, i)
    decreases |s| + 1 - from
  {
    if from <= |s| && !MatchesAt(s, pattern, from) { IndexOfSome(s, pattern, from + 1); }
  }

  /** There is no match before the index found. */
  lemma {:induction false} IndexOfLeast(s: string, pattern: string, from: nat, i: nat)
    requires from <= i && (IndexOf(s, pattern, from) == -1 || i < IndexOf(s, pattern, from))
    ensures !MatchesAt(s, pattern, i)
    decreases |s| + 1 - from
  {
    if from <= |s| && !MatchesAt(s, pattern, from) && i > from { IndexOfLeast(s, pattern, from + 1, i); }
  }

  /** Does the pattern occur? */
  predicate Contains(s: string, pattern: string) {
    IndexOf(s, pattern, 0) >= 0
  }

  predicate StartsWith(s: string, prefix: string) { prefix <= s }

  // ---- Trimming ----

  /** The characters that `trim` and `\\s` treat as white space. */
  predicate IsSpace(c: char) {
    || c in "\t\n\r " || c == '\U{B}' || c == '\U{C}'
    || c == '\U{A0}' || c == '\U{1680}' || '\U{2000}' <= c <= '\U{200A}'
    || c == '\U{2028}' || c == '\U{2029}' || c == '\U{202F}' || c == '\U{205F}' || c == '\U{3000}' || c == '\U{FEFF}'
  }

  function TrimStart(s: string): (r: string)
    ensures |r| <= |s|
  {
    if s != "" && IsSpace(s[0]) then TrimStart(s[1..]) else s
  }

  function TrimEnd(s: string): (r: string)
    ensures |r| <= |s|
  {
    if s != "" && IsSpace(s[|s| - 1]) then TrimEnd(s[..|s| - 1]) else s
  }

  function Trim(s: string): string { TrimEnd(TrimStart(s)) }

  /** The number of leading white-space characters. */
  function Indent(s: string): nat { |s| - |TrimStart(s)| }

  predicate AllSpace(s: string) {
    forall i :: 0 <= i < |s| ==> IsSpace(s[i])
  }

  /** Neither end of the text is white space. */
  predicate Trimmed(s: string) {
    s == "" || (!IsSpace(s[0]) && !IsSpace(s[|s| - 1]))
  }

  lemma {:induction false} TrimStartPadded(pad: string, s: string)
    requires AllSpace(pad) && (s == "" || !IsSpace(s[0]))
    ensures TrimStart(pad + s) == s
  {
    if pad == "" {
      assert pad + s == s;
    } else {
      TrimStartPadded(pad[1..], s);
      assert (pad + s)[1..] == pad[1..] + s;
    }
  }

  lemma {:induction false} TrimEndPadded(s: string, pad: string)
    requires AllSpace(pad) && (s == "" || !IsSpace(s[|s| - 1]))
    ensures TrimEnd(s + pad) == s
  {
    if pad == "" {
      assert s + pad == s;
    } else {
      TrimEndPadded(s, pad[..|pad| - 1]);
      assert (s + pad)[..|s + pad| - 1] == s + pad[..|pad| - 1];
    }
  }

  /** Trimming takes exactly the padding off a trimmed text. */
  lemma TrimPadded(before: string, s: string, after: string)
    requires AllSpace(before) && AllSpace(after) && Trimmed(s)
    ensures Trim(before + s + after) == s
  {
    if s == "" {
      assert before + s + after == (before + after) + "";
      TrimStartPadded(before + after, "");
    } else {
      assert before + s + after == before + (s + after);
      TrimStartPadded(before, s + after);
      TrimEndPadded(s, after);
    }
  }

  lemma TrimTrimmed(s: string)
    requires Trimmed(s)
    ensures Trim(s) == s && Indent(s) == 0
  {
    assert "" + s + "" == s;
    TrimPadded("", s, "");
    TrimStartPadded("", s);
    assert "" + s == s;
  }

  /** A text is white space, a trimmed text, and white space. */
  lemma {:induction false} Pieces(s: string) returns (before: string, core: string, after: string)
    ensures s == before + core + after && AllSpace(before) && AllSpace(after) && Trimmed(core)
    ensures Trim(s) == core
    decreases |s|
  {
    before, core, after := "", s, "";
    if s != "" && IsSpace(s[0]) {
      before, core, after := Pieces(s[1..]);
      before := [s[0]] + before;
      assert s == [s[0]] + s[1..];
    } else if s != "" && IsSpace(s[|s| - 1]) {
      before, core, after := Pieces(s[..|s| - 1]);
      after := after + [s[|s| - 1]];
      assert s == s[..|s| - 1] + [s[|s| - 1]];
    }
    assert before + core + after == s;
    TrimPadded(before, core, after);
  }
}
