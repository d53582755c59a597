/**
 Splitting a long message into chunks (`splitTelegramMessage`,
 packages/gateway/src/index.ts:1691-1714).
 */
module MessageSplit {
  import opened Text

  /** `s.lastIndexOf(pattern, from)`: the last match that begins at or before `from`, or -1. */
  function LastIndexOf(s: string, pattern: string, from: int): (r: int)
    ensures r == -1 || (0 <= r <= from && r + |pattern| <= |s|)
    decreases from + 1
  {
    if from < 0 then -1
    else if MatchesAt(s, pattern, from) then from
    else LastIndexOf(s, pattern, from - 1)
  }

  /** The index found is that of the last match up to `from`. */
  lemma {:induction false} LastIndexIsLast(s: string, pattern: string, from: int, i: nat)
    ensures var r := LastIndexOf(s, pattern, from);
            (r >= 0 ==> MatchesAt(s, pattern, r)) && (r < i <= from ==> !MatchesAt(s, pattern, i))
    decreases from + 1
  {
    if from >= 0 && !MatchesAt(s, pattern, from) { LastIndexIsLast(s, pattern, from - 1, i); }
  }

  /** Is a cut at `p` too early, that is, before three tenths of the maximum? */
  predicate TooEarly(p: int, maxLength: nat) { 10 * p < 3 * maxLength }

  /** A paragraph break, else a line break, else the maximum; breaks that come too early do not count. */
  function SplitPoint(remaining: string, maxLength: nat): (p: nat)
    requires |remaining| > maxLength
    ensures p <= maxLength && !TooEarly(p, maxLength) && (maxLength >= 1 ==> p >= 1)
  {
    var paragraph := LastIndexOf(remaining, "\n\n", maxLength);
    if !TooEarly(paragraph, maxLength) then paragraph
    else
      var line := LastIndexOf(remaining, "\n", maxLength);
      if !TooEarly(line, maxLength) then line else maxLength
  }

  /** `replace(/^\n+/, '')` */
  function StripNewlines(s: string): (r: string)
    ensures |r| <= |s| && r == s[|s| - |r|..]
    ensures r != "" ==> r[0] != '\n'
  {
    if s != "" && s[0] == '\n' then StripNewlines(s[1..]) else s
  }

  function Rest(remaining: string, maxLength: nat): (r: string)
    requires |remaining| > maxLength
    ensures |r| <= |remaining| - SplitPoint(remaining, maxLength)
  {
    StripNewlines(remaining[SplitPoint(remaining, maxLength)..])
  }

  predicate OnlyNewlines(s: string) {
    forall i :: 0 <= i < |s| ==> s[i] == '\n'
  }

  /** The inputs on which the loop ends: with a maximum of zero it only ever drops newlines. */
  predicate Ends(text: string, maxLength: nat) { maxLength >= 1 || OnlyNewlines(text) }

  lemma {:induction false} NothingBehindNewlines(s: string)
    ensures OnlyNewlines(s) <==> StripNewlines(s) == ""
  {
    if s != "" && s[0] == '\n' {
      NothingBehindNewlines(s[1..]);
      assert forall i :: 1 <= i < |s| ==> s[i] == s[1..][i - 1];
    }
  }

  lemma RestEnds(remaining: string, maxLength: nat)
    requires |remaining| > maxLength && Ends(remaining, maxLength)
    ensures |Rest(remaining, maxLength)| < |remaining| && Ends(Rest(remaining, maxLength), maxLength)
  {
    hide OnlyNewlines, LastIndexOf, StripNewlines;
    NothingBehindNewlines(remaining);
    NothingBehindNewlines("");
    assert remaining[0..] == remaining;
  }

  /** The chunks the loop still produces. */
  function Chunks(remaining: string, maxLength: nat): seq<string>
    requires Ends(remaining, maxLength)
    decreases |remaining|
  {
    if remaining == "" then []
    else if |remaining| <= maxLength then [remaining]
    else
      RestEnds(remaining, maxLength);
      [remaining[..SplitPoint(remaining, maxLength)]] + Chunks(Rest(remaining, maxLength), maxLength)
  }

  function Split(text: string, maxLength: nat): seq<string>
    requires Ends(text, maxLength)
  {
    if |text| <= maxLength then [text] else Chunks(text, maxLength)
  }

  // ---- The cut ----

  /**
   The cut is the last usable paragraph break within the maximum; without one the last usable line
   break; without one the maximum itself.
   */
  lemma CutIsBest(remaining: string, maxLength: nat, other: nat)
    requires |remaining| > maxLength && 3 * maxLength <= 10 * other <= 10 * maxLength
    ensures var p := SplitPoint(remaining, maxLength);
            && (MatchesAt(remaining, "\n\n", other) ==> other <= p && MatchesAt(remaining, "\n\n", p))
            && (MatchesAt(remaining, "\n", other) ==>
                  MatchesAt(remaining, "\n\n", p) || (other <= p && MatchesAt(remaining, "\n", p)))
            && (p < maxLength ==> MatchesAt(remaining, "\n", p)) && 3 * maxLength <= 10 * p <= 10 * maxLength
  {
    var p := SplitPoint(remaining, maxLength);
    LastIndexIsLast(remaining, "\n\n", maxLength, other);
    LastIndexIsLast(remaining, "\n", maxLength, other);
    if MatchesAt(remaining, "\n\n", p) { ParagraphIsLine(remaining, p); }
  }

  /** A paragraph break is a line break. */
  lemma ParagraphIsLine(s: string, p: nat)
    requires MatchesAt(s, "\n\n", p)
    ensures MatchesAt(s, "\n", p)
  {
    assert s[p..p + 2][0] == s[p] == '\n';
    assert s[p..p + 1] == [s[p]];
  }

  // ---- Sizes ----

  /** Every chunk fits and none is empty; every chunk but the last has at least three tenths of the maximum. */
  predicate SizesFit(cs: seq<string>, maxLength: nat) {
    && (forall i :: 0 <= i < |cs| ==> 1 <= |cs[i]| <= maxLength)
    && (forall i :: 0 <= i < |cs| - 1 ==> 3 * maxLength <= 10 * |cs[i]|)
  }

  lemma OneChunkMore(first: string, cs: seq<string>, maxLength: nat)
    requires 1 <= |first| <= maxLength && 3 * maxLength <= 10 * |first| && SizesFit(cs, maxLength)
    ensures SizesFit([first] + cs, maxLength)
  {
  }

  lemma {:induction false} ChunkSizes(remaining: string, maxLength: nat)
    requires maxLength >= 1
    ensures SizesFit(Chunks(remaining, maxLength), maxLength)
    decreases |remaining|
  {
    if |remaining| > maxLength {
      hide SizesFit, LastIndexOf, StripNewlines;
      ChunkSizes(Rest(remaining, maxLength), maxLength);
      OneChunkMore(remaining[..SplitPoint(remaining, maxLength)], Chunks(Rest(remaining, maxLength), maxLength), maxLength);
    }
  }

  /** The first chunk begins the text, and no later one is empty or begins with a line break. */
  predicate StartsFit(cs: seq<string>, text: string) {
    && (cs != [] ==> cs[0] <= text)
    && (forall i :: 0 < i < |cs| ==> cs[i] != "" && cs[i][0] != '\n')
  }

  lemma OneStartMore(first: string, cs: seq<string>, text: string, rest: string)
    requires first <= text && StartsFit(cs, rest) && (rest != "" ==> rest[0] != '\n') && (cs != [] ==> cs[0] != "")
    ensures StartsFit([first] + cs, text)
  {
    var all := [first] + cs;
    forall i | 0 < i < |all| ensures all[i] != "" && all[i][0] != '\n' { assert all[i] == cs[i - 1]; }
  }

  lemma {:induction false} ChunkStarts(remaining: string, maxLength: nat)
    requires maxLength >= 1
    ensures StartsFit(Chunks(remaining, maxLength), remaining)
    decreases |remaining|
  {
    if |remaining| > maxLength {
      hide LastIndexOf, SplitPoint, Chunks, StartsFit;
      var rest := Rest(remaining, maxLength);
      RestEnds(remaining, maxLength);
      ChunkSizes(rest, maxLength);
      ChunkStarts(rest, maxLength);
      CutOff([], remaining, maxLength);
      OneStartMore(remaining[..SplitPoint(remaining, maxLength)], Chunks(rest, maxLength), remaining, rest);
    }
  }

  /** So the number of chunks is bounded by the length of the text. */
  lemma {:induction false} ChunkCount(remaining: string, maxLength: nat)
    requires maxLength >= 1 && remaining != ""
    ensures (|Chunks(remaining, maxLength)| - 1) * (3 * maxLength) <= 10 * |remaining|
    decreases |remaining|
  {
    hide SplitPoint, Rest, StripNewlines;
    if |remaining| > maxLength {
      var p, rest := SplitPoint(remaining, maxLength), Rest(remaining, maxLength);
      if rest != "" { ChunkCount(rest, maxLength); }
      OneMore(|Chunks(rest, maxLength)|, 3 * maxLength);
    }
  }

  lemma OneMore(n: nat, k: nat)
    ensures n * k == (n - 1) * k + k
  {
  }

  // ---- Nothing but newlines is lost ----

  /** The newline runs dropped after each chunk. */
  function Gaps(remaining: string, maxLength: nat): (gaps: seq<string>)
    requires Ends(remaining, maxLength)
    ensures |gaps| == |Chunks(remaining, maxLength)|
    decreases |remaining|
  {
    if remaining == "" then []
    else if |remaining| <= maxLength then [""]
    else
      var rest := Rest(remaining, maxLength);
      RestEnds(remaining, maxLength);
      [remaining[SplitPoint(remaining, maxLength)..|remaining| - |rest|]] + Gaps(rest, maxLength)
  }

  function Weave(chunks: seq<string>, gaps: seq<string>): string
    requires |chunks| == |gaps|
  {
    if chunks == [] then "" else chunks[0] + gaps[0] + Weave(chunks[1..], gaps[1..])
  }

  lemma {:induction false} StrippedNewlines(s: string)
    ensures OnlyNewlines(s[..|s| - |StripNewlines(s)|])
  {
    if s != "" && s[0] == '\n' {
      StrippedNewlines(s[1..]);
      var n := |s| - |StripNewlines(s)|;
      forall i | 0 <= i < n ensures s[i] == '\n' {
        if i > 0 { assert s[1..][..n - 1][i - 1] == s[i]; }
      }
    }
  }

  /** The text is the chunks in order with newline runs, and nothing else, dropped at the cuts. */
  lemma {:induction false} ChunksCover(remaining: string, maxLength: nat)
    requires Ends(remaining, maxLength)
    ensures Weave(Chunks(remaining, maxLength), Gaps(remaining, maxLength)) == remaining
    ensures forall i :: 0 <= i < |Gaps(remaining, maxLength)| ==> OnlyNewlines(Gaps(remaining, maxLength)[i])
    decreases |remaining|
  {
    hide SplitPoint, StripNewlines, OnlyNewlines, Rest, Ends;
    if remaining == "" {
    } else if |remaining| <= maxLength {
      assert [remaining][1..] == [] && [""][1..] == [];
      NoNewlines();
    } else {
      var p, rest := SplitPoint(remaining, maxLength), Rest(remaining, maxLength);
      CutCovers(remaining, maxLength);
      RestEnds(remaining, maxLength);
      ChunksCover(rest, maxLength);
      WeaveCons(remaining[..p], remaining[p..|remaining| - |rest|], Chunks(rest, maxLength), Gaps(rest, maxLength));
    }
  }

  /** Of a whole message: there is always a chunk, and the chunks are the text with newline runs dropped between them. */
  lemma SplitCovers(text: string, maxLength: nat) returns (gaps: seq<string>)
    requires Ends(text, maxLength)
    ensures |gaps| == |Split(text, maxLength)| && Weave(Split(text, maxLength), gaps) == text
    ensures forall i :: 0 <= i < |gaps| ==> OnlyNewlines(gaps[i])
    ensures (text == "" || maxLength > 0) ==> Split(text, maxLength) != []
  {
    if |text| <= maxLength {
      gaps := [""];
      assert [text][1..] == [] && [""][1..] == [];
      NoNewlines();
    } else {
      gaps := Gaps(text, maxLength);
      ChunksCover(text, maxLength);
    }
  }

  lemma NoNewlines()
    ensures OnlyNewlines("")
  {
  }

  lemma WeaveCons(chunk: string, gap: string, chunks: seq<string>, gaps: seq<string>)
    requires |chunks| == |gaps|
    ensures Weave([chunk] + chunks, [gap] + gaps) == chunk + gap + Weave(chunks, gaps)
  {
  }

  lemma CutCovers(remaining: string, maxLength: nat)
    requires |remaining| > maxLength
    ensures var p, rest := SplitPoint(remaining, maxLength), Rest(remaining, maxLength);
            var gap := remaining[p..|remaining| - |rest|];
            remaining == remaining[..p] + gap + rest && OnlyNewlines(gap)
  {
    hide SplitPoint, StripNewlines, OnlyNewlines;
    var p, rest := SplitPoint(remaining, maxLength), Rest(remaining, maxLength);
    var tail := remaining[p..];
    StrippedNewlines(tail);
    assert remaining[p..|remaining| - |rest|] == tail[..|tail| - |rest|];
    assert rest == remaining[|remaining| - |rest|..];
  }

  /** On every other input it never does: behind its leading newlines the text stays as it is, and is not empty. */
  lemma ZeroMakesNoProgress(text: string)
    requires !Ends(text, 0)
    ensures var rest := Rest(text, 0); rest != "" && Rest(rest, 0) == rest
  {
    NothingBehindNewlines(text);
    var rest := StripNewlines(text);
    assert text[0..] == text && rest[0..] == rest;
    assert Rest(text, 0) == rest && StripNewlines(rest) == rest;
  }

  // ---- The loop ----

  /** Where the loop cuts: the two searches and the forced cut. */
  method FindCut(remaining: string, maxLength: nat) returns (splitAt: nat)
    requires |remaining| > maxLength
    ensures splitAt == SplitPoint(remaining, maxLength)
  {
    var at := LastIndexOf(remaining, "\n\n", maxLength);
    if TooEarly(at, maxLength) {
      at := LastIndexOf(remaining, "\n", maxLength);
    }
    if TooEarly(at, maxLength) {
      at := maxLength;
    }
    splitAt := at;
  }

  method SplitTelegramMessage(text: string, maxLength: nat) returns (chunks: seq<string>)
    requires Ends(text, maxLength)
    ensures chunks == Split(text, maxLength)
    ensures text != "" && maxLength >= 1 ==> SizesFit(chunks, maxLength)
  {
    hide StripNewlines, LastIndexOf, SplitPoint, Ends;
    if |text| <= maxLength { return [text]; }
    if maxLength >= 1 { ChunkSizes(text, maxLength); }
    hide SizesFit;
    chunks := [];
    var remaining := text;
    while |remaining| > 0
      invariant Ends(remaining, maxLength)
      invariant chunks + Chunks(remaining, maxLength) == Chunks(text, maxLength)
      decreases |remaining|
    {
      if |remaining| <= maxLength {
        chunks := chunks + [remaining];
        break;
      }
      CutOff(chunks, remaining, maxLength);
      RestEnds(remaining, maxLength);
      var splitAt := FindCut(remaining, maxLength);
      chunks := chunks + [remaining[..splitAt]];
      remaining := StripNewlines(remaining[splitAt..]);
    }
  }

  lemma CutOff(chunks: seq<string>, remaining: string, maxLength: nat)
    requires |remaining| > maxLength && Ends(remaining, maxLength)
    ensures Ends(Rest(remaining, maxLength), maxLength)
    ensures chunks + Chunks(remaining, maxLength) ==
            (chunks + [remaining[..SplitPoint(remaining, maxLength)]]) + Chunks(Rest(remaining, maxLength), maxLength)
  {
    hide SplitPoint, Rest, Ends;
    RestEnds(remaining, maxLength);
  }
}
