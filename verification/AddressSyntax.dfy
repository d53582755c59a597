/**
 Which texts are read as addresses (packages/core/src/security.ts:50-119): exactly the well-written ones.
 */
module AddressSyntax {
  import opened Options
  import opened Text
  import opened AddressMatch
  import opened AddressPrint
  import Sequences

  predicate HexChar(c: char) { '0' <= c <= '9' || 'a' <= c <= 'f' || 'A' <= c <= 'F' }

  /** How many runs of other characters than colons begin in the text, behind a colon or not. */
  function GroupStarts(s: string, behindColon: bool): nat {
    if s == "" then 0
    else (if s[0] != ':' && behindColon then 1 else 0) + GroupStarts(s[1..], s[0] == ':')
  }

  /** No five characters in a row without a colon. */
  predicate ShortRuns(s: string) {
    forall i :: 0 <= i < |s| ==> ColonNear(s, i)
  }

  /** Is one of the five characters from here on a colon, or are there fewer? */
  predicate ColonNear(s: string, i: nat) {
    i + 5 <= |s| ==> s[i] == ':' || s[i + 1] == ':' || s[i + 2] == ':' || s[i + 3] == ':' || s[i + 4] == ':'
  }

  predicate ColonsAndHex(s: string) {
    forall i :: 0 <= i < |s| ==> s[i] == ':' || HexChar(s[i])
  }

  ghost predicate TwoGaps(s: string) {
    exists i: nat, j: nat :: i < j && MatchesAt(s, "::", i) && MatchesAt(s, "::", j)
  }

  /** Colons and runs of one to four hexadecimal digits; eight runs, or one `::` and at most seven. */
  ghost predicate WellWritten(s: string) {
    && ':' in s && ColonsAndHex(s) && ShortRuns(s) && !TwoGaps(s)
    && (if exists i: nat :: MatchesAt(s, "::", i) then GroupStarts(s, true) <= 7 else GroupStarts(s, true) == 8)
  }

  lemma HexCharIs(c: char)
    ensures IsHex(c) <==> HexChar(c)
  {
  }

  lemma {:induction false} FieldCount(s: string)
    ensures |Fields(s)| == GroupStarts(s, true)
    ensures |NonEmpty(Split(s, ':')[1..])| == GroupStarts(s, false)
  {
    if s != "" {
      FieldCount(s[1..]);
      var rest := Split(s[1..], ':');
      if s[0] == ':' {
        assert ([""] + rest)[1..] == rest;
      } else {
        assert ([[s[0]] + rest[0]] + rest[1..])[1..] == rest[1..];
      }
    } else {
      assert [""][1..] == [];
    }
  }

  /** Every part is empty or a group. */
  predicate PartsFit(parts: seq<string>) {
    forall i :: 0 <= i < |parts| ==> parts[i] == "" || GroupText(parts[i])
  }

  lemma {:induction false} NonEmptyFit(parts: seq<string>)
    ensures PartsFit(parts) <==> GroupTexts(NonEmpty(parts))
  {
    hide GroupText;
    if parts != [] {
      NonEmptyFit(parts[1..]);
      EmptyNoGroup();
      assert parts == [parts[0]] + parts[1..];
      var more := NonEmpty(parts[1..]);
      if parts[0] != "" {
        assert GroupTexts([parts[0]] + more) <==> GroupText(parts[0]) && GroupTexts(more) by { GroupTextsMore(parts[0], more); }
      }
      assert PartsFit(parts) <==> (parts[0] == "" || GroupText(parts[0])) && PartsFit(parts[1..]);
    }
  }

  lemma EmptyNoGroup()
    ensures !GroupText("")
  {
  }

  lemma GroupTextsMore(first: string, more: seq<string>)
    ensures GroupTexts([first] + more) <==> GroupText(first) && GroupTexts(more)
  {
    hide GroupText;
    var all := [first] + more;
    if GroupTexts(all) { assert all[0] == first; forall i | 0 <= i < |more| ensures GroupText(more[i]) { assert all[i + 1] == more[i]; } }
  }

  /** Reading from the front with `run` characters of the current run behind: are the runs short and hexadecimal? */
  predicate RunsFit(s: string, run: nat) {
    s == "" || (if s[0] == ':' then RunsFit(s[1..], 0) else HexChar(s[0]) && run < 4 && RunsFit(s[1..], run + 1))
  }

  predicate FirstFits(f: string, run: nat) {
    |f| + run <= 4 && forall i :: 0 <= i < |f| ==> HexChar(f[i])
  }

  lemma {:induction false} SplitFits(s: string, run: nat)
    requires run <= 4
    ensures var parts := Split(s, ':'); RunsFit(s, run) <==> FirstFits(parts[0], run) && PartsFit(parts[1..])
  {
    if s != "" {
      var rest := Split(s[1..], ':');
      if s[0] == ':' {
        SplitFits(s[1..], 0);
        assert ([""] + rest)[1..] == rest;
        assert PartsFit(rest) <==> (rest[0] == "" || GroupText(rest[0])) && PartsFit(rest[1..]) by { PartsMore(rest); }
        FirstIsGroup(rest[0]);
      } else {
        if run < 4 { SplitFits(s[1..], run + 1); }
        var f := [s[0]] + rest[0];
        assert ([f] + rest[1..])[1..] == rest[1..];
        assert FirstFits(f, run) <==> HexChar(s[0]) && FirstFits(rest[0], run + 1) by { FirstMore(s[0], rest[0], run); }
      }
    }
  }

  lemma PartsMore(parts: seq<string>)
    requires parts != []
    ensures PartsFit(parts) <==> (parts[0] == "" || GroupText(parts[0])) && PartsFit(parts[1..])
  {
    hide GroupText;
    assert parts == [parts[0]] + parts[1..];
  }

  lemma FirstIsGroup(f: string)
    ensures FirstFits(f, 0) <==> f == "" || GroupText(f)
  {
  }

  lemma FirstMore(c: char, f: string, run: nat)
    ensures FirstFits([c] + f, run) <==> HexChar(c) && FirstFits(f, run + 1)
  {
    hide HexChar;
    var all := [c] + f;
    if FirstFits(all, run) {
      assert all[0] == c;
      forall i | 0 <= i < |f| ensures HexChar(f[i]) { assert all[i + 1] == f[i]; }
    }
  }

  /** All groups of a text are fit exactly when its characters are and no run is longer than four. */
  lemma FieldsFit(s: string)
    ensures GroupTexts(Fields(s)) <==> ColonsAndHex(s) && ShortRuns(s)
  {
    var parts := Split(s, ':');
    NonEmptyFit(parts);
    PartsMore(parts);
    FirstIsGroup(parts[0]);
    SplitFits(s, 0);
    RunsAre(s, 0);
    hide Split, GroupText, ColonsAndHex, PartsFit, GroupTexts, FirstFits, RunsFit;
  }

  predicate FirstRunShort(s: string, run: nat) {
    run <= 4 && (5 - run <= |s| ==> exists k :: 0 <= k < 5 - run && s[k] == ':')
  }

  lemma {:induction false} RunsAre(s: string, run: nat)
    requires run <= 4
    ensures RunsFit(s, run) <==> ColonsAndHex(s) && ShortRuns(s) && FirstRunShort(s, run)
    ensures run == 0 && ShortRuns(s) ==> FirstRunShort(s, 0)
  {
    hide HexChar;
    if run == 0 { NoLongFirstRun(s); }
    if s != "" {
      CharsMore(s);
      ShortMore(s);
      if s[0] == ':' {
        RunsAre(s[1..], 0);
      } else if run < 4 {
        RunsAre(s[1..], run + 1);
        FirstRunMore(s, run);
      }
    }
  }

  lemma NoLongFirstRun(s: string)
    ensures ShortRuns(s) ==> FirstRunShort(s, 0)
  {
    assert ShortRuns(s) && |s| >= 5 ==> ColonNear(s, 0);
  }

  lemma CharsMore(s: string)
    requires s != ""
    ensures ColonsAndHex(s) <==> (s[0] == ':' || HexChar(s[0])) && ColonsAndHex(s[1..])
  {
    hide HexChar;
    assert s == [s[0]] + s[1..];
  }

  lemma ShortMore(s: string)
    requires s != ""
    ensures ShortRuns(s) <==> ColonNear(s, 0) && ShortRuns(s[1..])
  {
    assert forall i :: 1 <= i < |s| ==> (ColonNear(s, i) <==> ColonNear(s[1..], i - 1));
    if ColonNear(s, 0) && ShortRuns(s[1..]) {
      forall i | 0 <= i < |s| ensures ColonNear(s, i) { if i > 0 { assert ColonNear(s[1..], i - 1); } }
    }
    if ShortRuns(s) {
      forall i | 0 <= i < |s[1..]| ensures ColonNear(s[1..], i) { assert ColonNear(s, i + 1); }
    }
  }

  lemma FirstRunMore(s: string, run: nat)
    requires s != "" && s[0] != ':' && run < 4
    ensures FirstRunShort(s, run) <==> FirstRunShort(s[1..], run + 1)
    ensures FirstRunShort(s[1..], run + 1) ==> ColonNear(s, 0)
  {
    if FirstRunShort(s, run) && 5 - run <= |s| {
      var k :| 0 <= k < 5 - run && s[k] == ':';
      assert s[1..][k - 1] == ':';
    }
  }

  lemma SplitMore(c: char, t: string)
    ensures Split([c] + t, ':') ==
            if c == ':' then [""] + Split(t, ':') else [[c] + Split(t, ':')[0]] + Split(t, ':')[1..]
  {
    assert ([c] + t)[1..] == t;
  }

  lemma {:induction false} SplitConcat(a: string, b: string)
    ensures Split(a + ":" + b, ':') == Split(a, ':') + Split(b, ':')
  {
    if a == "" {
      SplitMore(':', b);
      assert "" + ":" + b == [':'] + b;
    } else {
      hide Split;
      SplitConcat(a[1..], b);
      SplitMore(a[0], a[1..] + ":" + b);
      SplitMore(a[0], a[1..]);
      assert [a[0]] + (a[1..] + ":" + b) == a + ":" + b && [a[0]] + a[1..] == a;
      HeadAndTail([a[0]], Split(a[1..], ':'), Split(b, ':'));
      Sequences.Regroup([""], Split(a[1..], ':'), Split(b, ':'));
    }
  }

  lemma HeadAndTail(c: string, x: seq<string>, y: seq<string>)
    requires x != []
    ensures [c + (x + y)[0]] + (x + y)[1..] == ([c + x[0]] + x[1..]) + y
  {
    assert (x + y)[1..] == x[1..] + y;
  }

  lemma NonEmptyMore(first: string, rest: seq<string>)
    ensures NonEmpty([first] + rest) == if first == "" then NonEmpty(rest) else [first] + NonEmpty(rest)
  {
    assert ([first] + rest)[1..] == rest;
  }

  lemma {:induction false} NonEmptyConcat(a: seq<string>, b: seq<string>)
    ensures NonEmpty(a + b) == NonEmpty(a) + NonEmpty(b)
  {
    if a == [] {
      assert a + b == b;
    } else {
      NonEmptyMore(a[0], a[1..]);
      NonEmptyMore(a[0], a[1..] + b);
      hide NonEmpty;
      NonEmptyConcat(a[1..], b);
      assert [a[0]] + a[1..] == a && [a[0]] + (a[1..] + b) == a + b;
      Sequences.Regroup([a[0]], NonEmpty(a[1..]), NonEmpty(b));
    }
  }

  /** A gap ends one group list and begins another. */
  lemma FieldsAround(s: string, gap: nat)
    requires MatchesAt(s, "::", gap)
    ensures Fields(s) == Fields(s[..gap]) + Fields(s[gap + 2..])
  {
    var a, b := s[..gap], s[gap + 2..];
    assert s == a + ":" + (":" + b) && ":" + b == "" + ":" + b;
    SplitConcat(a, ":" + b);
    SplitConcat("", b);
    NonEmptyConcat(Split(a, ':'), Split(":" + b, ':'));
    NonEmptyConcat(Split("", ':'), Split(b, ':'));
    assert NonEmpty(Split("", ':')) == [] by { assert [""][1..] == []; }
  }

  lemma GroupTextsConcat(a: seq<string>, b: seq<string>)
    ensures GroupTexts(a + b) <==> GroupTexts(a) && GroupTexts(b)
  {
    hide GroupText;
    var all := a + b;
    if GroupTexts(all) {
      forall i | 0 <= i < |a| ensures GroupText(a[i]) { assert all[i] == a[i]; }
      forall i | 0 <= i < |b| ensures GroupText(b[i]) { assert all[|a| + i] == b[i]; }
    }
  }

  lemma ParsesExactly(texts: seq<string>)
    ensures ParseGroups(texts).Some? <==> GroupTexts(texts)
  {
  }

  lemma GapsAre(s: string)
    ensures IndexOf(s, "::", 0) == -1 <==> !exists i: nat :: MatchesAt(s, "::", i)
    ensures IndexOf(s, "::", 0) == -1 ==> !TwoGaps(s)
    ensures var gap := IndexOf(s, "::", 0);
            gap >= 0 ==> MatchesAt(s, "::", gap) && (IndexOf(s, "::", gap + 1) != -1 <==> TwoGaps(s))
    ensures Contains(s, ":") <==> ':' in s
  {
    IndexOfSome(s, "::", 0);
    ColonFound(s);
    var gap := IndexOf(s, "::", 0);
    if gap >= 0 {
      FoundMatches(s, "::", 0);
      IndexOfSome(s, "::", gap + 1);
      forall i: nat, j: nat | i < j && MatchesAt(s, "::", i) && MatchesAt(s, "::", j) ensures gap < j {
        if j <= gap { IndexOfLeast(s, "::", 0, i); }
      }
    }
  }

  lemma {:induction false} FoundMatches(s: string, pattern: string, from: nat)
    ensures var r := IndexOf(s, pattern, from); r >= 0 ==> MatchesAt(s, pattern, r)
    decreases |s| + 1 - from
  {
    if from <= |s| && !MatchesAt(s, pattern, from) { FoundMatches(s, pattern, from + 1); }
  }

  lemma ColonFound(s: string)
    ensures Contains(s, ":") <==> ':' in s
  {
    IndexOfSome(s, ":", 0);
    forall i: nat ensures MatchesAt(s, ":", i) <==> i < |s| && s[i] == ':' {
      if i < |s| { assert s[i..i + 1] == [s[i]]; }
    }
    if ':' in s {
      var i :| 0 <= i < |s| && s[i] == ':';
      assert MatchesAt(s, ":", i);
    }
  }

  /** A text is read as an IPv6 address exactly when it is written as one. */
  lemma AcceptsExactly(s: string)
    ensures ExpandIpv6(s).Some? <==> WellWritten(s)
  {
    hide Fields, GroupText, GroupTexts, ColonsAndHex, ShortRuns, GroupStarts, TwoGaps, Contains, MatchesAt, IndexOf, ParseGroups, Zeros;
    GapsAre(s);
    FieldCount(s);
    FieldsFit(s);
    var gap := IndexOf(s, "::", 0);
    if gap == -1 {
      ParsesExactly(Fields(s));
    } else {
      FieldsAround(s, gap);
      var head, tail := Fields(s[..gap]), Fields(s[gap + 2..]);
      GroupTextsConcat(head, tail);
      if 8 - |head| - |tail| >= 1 {
        var zeros := Zeros(8 - |head| - |tail|);
        ParsesExactly(head + zeros + tail);
        GroupTextsConcat(head + zeros, tail);
        GroupTextsConcat(head, zeros);
        ZerosFit(8 - |head| - |tail|);
      }
    }
  }

  lemma ZerosFit(n: nat)
    ensures GroupTexts(Zeros(n))
  {
    assert IsHex("0"[0]);
  }

  /** A text is read as an IPv4 address exactly when it is four octets between dots. */
  lemma Ipv4Exactly(s: string)
    ensures Ipv4Word(s).Some? <==>
            exists a, b, c, d :: s == a + "." + b + "." + c + "." + d && OctetText(a) && OctetText(b) && OctetText(c) && OctetText(d)
  {
    hide Decimal;
    var parts := Split(s, '.');
    if Ipv4Word(s).Some? {
      JoinParts(s, '.');
      FourJoined(parts[0], parts[1], parts[2], parts[3]);
      assert parts == [parts[0], parts[1], parts[2], parts[3]];
    }
    forall a, b, c, d | s == a + "." + b + "." + c + "." + d && OctetText(a) && OctetText(b) && OctetText(c) && OctetText(d)
      ensures Ipv4Word(s).Some?
    {
      NoDot(a);
      NoDot(b);
      NoDot(c);
      NoDot(d);
      FourJoined(a, b, c, d);
      SplitJoin([a, b, c, d], '.');
    }
  }

  lemma FourJoined(a: string, b: string, c: string, d: string)
    ensures Join([a, b, c, d], '.') == a + "." + b + "." + c + "." + d
  {
    JoinSnoc([a, b, c], d, '.');
    JoinSnoc([a, b], c, '.');
    JoinSnoc([a], b, '.');
    assert [a] + [b] == [a, b] && [a, b] + [c] == [a, b, c] && [a, b, c] + [d] == [a, b, c, d];
    hide Join;
  }

  /** Joining undoes splitting. */
  lemma {:induction false} JoinParts(s: string, sep: char)
    ensures Join(Split(s, sep), sep) == s
  {
    if s != "" {
      JoinParts(s[1..], sep);
      var rest := Split(s[1..], sep);
      if s[0] == sep {
        assert ([""] + rest)[1..] == rest;
        assert Join([""] + rest, sep) == "" + [sep] + Join(rest, sep);
      } else if |rest| > 1 {
        assert ([[s[0]] + rest[0]] + rest[1..])[1..] == rest[1..];
        assert ([s[0]] + rest[0]) + [sep] + Join(rest[1..], sep) == [s[0]] + (rest[0] + [sep] + Join(rest[1..], sep));
      }
    }
  }
}
