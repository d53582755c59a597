/**
 Address prefix matching for the tailnet allowlist (packages/core/src/security.ts:50-119), on
 addresses that were already normalized.

 An IPv6 address is eight 16-bit groups and stands for a 128-bit number; a prefix matches when that
 many leading bits agree, that is, when the numbers agree without their remaining bits (section 2.3
 of RFC 4291). An IPv4 address is a 32-bit word treated the same way (section 3.1 of RFC 4632).
 */
module AddressMatch {
  import opened Options
  import opened Text
  import opened BitMath

  const WORD: nat := 65536

  lemma PowSixteen()
    ensures Pow2(16) == WORD
  {
    assert Pow2(8) == 256 by { assert Pow2(4) == 16; }
    PowSum(8, 8);
  }

  predicate Groups(gs: seq<nat>) {
    forall i :: 0 <= i < |gs| ==> gs[i] < WORD
  }

  lemma OneGroupMore(g: nat, n: nat, rest: nat)
    requires g < WORD && rest < Pow2(16 * n)
    ensures g * Pow2(16 * n) + rest < Pow2(16 * (n + 1))
  {
    PowSixteen();
    PowSum(16, 16 * n);
    var b := Pow2(16 * n);
    MulGrows(b, g + 1, WORD);
    assert b * (g + 1) == b * g + b;
  }

  /** A group in front of the number that `n` groups stand for. */
  function InFront(g: nat, n: nat, rest: nat): (r: nat)
    requires g < WORD && rest < Pow2(16 * n)
    ensures r < Pow2(16 * (n + 1))
  {
    OneGroupMore(g, n, rest);
    g * Pow2(16 * n) + rest
  }

  /** The number that groups stand for, most significant first. */
  function Number(gs: seq<nat>): (n: nat)
    requires Groups(gs)
    ensures n < Pow2(16 * |gs|)
  {
    if gs == [] then 0 else InFront(gs[0], |gs| - 1, Number(gs[1..]))
  }

  // ---- Comparing groups ----

  /** `(0xffff << (16 - bits)) & 0xffff`, the mask for the partial group. */
  function Mask16(bits: nat): nat
    requires 0 < bits < 16
  {
    And(ShiftLeft(0xffff, 16 - bits, 32), 0xffff)
  }

  lemma MaskIsPrefix(bits: nat)
    requires 0 < bits < 16
    ensures Mask16(bits) == Prefix(bits, 16 - bits)
  {
    PowSixteen();
    var k := 16 - bits;
    PowSum(16, k);
    PowSum(16 + k, bits);
    assert Pow2(16 + k + bits) == Pow2(32);
    var shifted := 0xffff * Pow2(k);
    MulGrows(Pow2(k), 0xffff, WORD);
    MulGrows(Pow2(16 + k), 1, Pow2(bits));
    Small(shifted, Pow2(32));
    AndLow(shifted, 16);
    ShiftedOnes(bits, k);
  }

  predicate GroupsMatch(target: seq<nat>, base: seq<nat>, prefixLength: nat) {
    var full, partial := prefixLength / 16, prefixLength % 16;
    && full <= |target| && full <= |base| && target[..full] == base[..full]
    && (partial == 0 || (full < |target| && full < |base| &&
                         And(target[full], Mask16(partial)) == And(base[full], Mask16(partial))))
  }

  /** The leading `p` bits of a group list, as a number. */
  function Leading(gs: seq<nat>, p: nat): int
    requires Groups(gs) && p <= 16 * |gs|
  {
    Above(Number(gs), 16 * |gs| - p)
  }

  /** A number without its low bits. */
  function Above(n: nat, bits: nat): int { n / Pow2(bits) }

  /** Fewer than sixteen leading bits lie in the first group. */
  lemma LeadingInFirst(gs: seq<nat>, p: nat)
    requires gs != [] && Groups(gs) && p < 16
    ensures Leading(gs, p) == gs[0] / Pow2(16 - p)
  {
    var below := 16 * |gs[1..]|;
    var rest := Number(gs[1..]);
    PowSum(below, 16 - p);
    DivUnique(Number(gs), Pow2(below), gs[0], rest);
    DivDiv(Number(gs), Pow2(below), Pow2(16 - p));
    assert below + (16 - p) == 16 * |gs| - p;
  }

  /** Sixteen or more leading bits are the first group and the leading bits of the others. */
  lemma LeadingBeyondFirst(gs: seq<nat>, p: nat)
    requires gs != [] && Groups(gs) && 16 <= p <= 16 * |gs|
    ensures var tail := Leading(gs[1..], p - 16);
            Leading(gs, p) == gs[0] * Pow2(p - 16) + tail && 0 <= tail < Pow2(p - 16)
  {
    var low := 16 * |gs| - p;
    assert (p - 16) + low == 16 * |gs[1..]|;
    PowSum(p - 16, low);
    AboveSum(gs[0], Pow2(p - 16), Pow2(low), Number(gs[1..]));
  }

  lemma AboveSum(g: nat, top: nat, d: nat, rest: nat)
    requires d > 0 && rest < top * d
    ensures (g * (top * d) + rest) / d == g * top + rest / d && 0 <= rest / d < top
  {
    var q, r := Euclid(rest, d);
    MulGrows(d, top, q);
    assert top * d == d * top;
    AboveParts(g, top, d, q, r);
  }

  lemma Euclid(x: nat, d: nat) returns (q: nat, r: nat)
    requires d > 0
    ensures q == x / d && x == d * q + r && r < d
  {
    q, r := x / d, x % d;
  }

  lemma AboveParts(g: nat, top: nat, d: nat, q: nat, r: nat)
    requires r < d
    ensures (g * (top * d) + (d * q + r)) / d == g * top + q
  {
    Associate(g, top, d);
    Distribute(g * top, q, d);
    DivUnique((g * top + q) * d + r, d, g * top + q, r);
  }

  lemma Distribute(a: int, b: int, d: int)
    ensures (a + b) * d == a * d + d * b
  {
  }

  /** For every prefix length the group-wise comparison decides whether that many leading bits agree. */
  lemma {:induction false} GroupsMatchIsPrefix(target: seq<nat>, base: seq<nat>, p: nat)
    requires |target| == |base| && p <= 16 * |target| && Groups(target) && Groups(base)
    ensures GroupsMatch(target, base, p) <==> Leading(target, p) == Leading(base, p)
    decreases |target|
  {
    hide GroupsMatch, Leading, Pow2;
    if p >= 16 {
      GroupsMatchIsPrefix(target[1..], base[1..], p - 16);
      GroupsMatchTail(target, base, p);
      LeadingBeyondFirst(target, p);
      LeadingBeyondFirst(base, p);
      SameParts(target[0], Leading(target[1..], p - 16), base[0], Leading(base[1..], p - 16), Pow2(p - 16));
    } else if target == [] {
      NoGroups(p);
    } else {
      FirstGroupMatches(target, base, p);
    }
  }

  lemma NoGroups(p: nat)
    requires p == 0
    ensures GroupsMatch([], [], p)
  {
  }

  lemma FirstGroupMatches(target: seq<nat>, base: seq<nat>, p: nat)
    requires |target| == |base| && target != [] && p < 16 && Groups(target) && Groups(base)
    ensures GroupsMatch(target, base, p) <==> Leading(target, p) == Leading(base, p)
  {
    hide Leading, Pow2, Mask16;
    LeadingInFirst(target, p);
    LeadingInFirst(base, p);
    PowSixteen();
    assert p / 16 == 0 && p % 16 == p;
    if p == 0 {
      Small(target[0], WORD);
      Small(base[0], WORD);
    } else {
      MaskIsPrefix(p);
      MaskComparesQuotients(target[0], base[0], p, 16 - p);
    }
  }

  lemma SameParts(a: nat, x: nat, b: nat, y: nat, d: nat)
    requires d > 0 && x < d && y < d
    ensures a * d + x == b * d + y <==> a == b && x == y
  {
    DivUnique(a * d + x, d, a, x);
    DivUnique(b * d + y, d, b, y);
  }

  lemma GroupsMatchTail(target: seq<nat>, base: seq<nat>, p: nat)
    requires |target| == |base| && 16 <= p <= 16 * |target|
    ensures GroupsMatch(target, base, p) <==> target[0] == base[0] && GroupsMatch(target[1..], base[1..], p - 16)
  {
    var full := p / 16;
    assert (p - 16) / 16 == full - 1 && (p - 16) % 16 == p % 16;
    assert 16 * full <= p;
    TakeTail(target, full);
    TakeTail(base, full);
  }

  lemma TakeTail(s: seq<nat>, k: nat)
    requires 1 <= k <= |s|
    ensures s[..k] == [s[0]] + s[1..][..k - 1]
  {
  }

  /** Do both texts expand, and do their leading bits agree? */
  predicate SamePrefix6(ip: string, base: string, prefixLength: int) {
    var t, c := ExpandIpv6(ip), ExpandIpv6(base);
    && t.Some? && c.Some? && 0 <= prefixLength <= 128
    && Leading(t.value, prefixLength) == Leading(c.value, prefixLength)
  }

  /** `ipv6MatchesCidr`: the loop over the full groups, then the masked group. */
  method Ipv6MatchesCidr(ip: string, base: string, prefixLength: int) returns (b: bool)
    ensures b <==> SamePrefix6(ip, base, prefixLength)
  {
    var target, cidrBase := ExpandIpv6(ip), ExpandIpv6(base);
    if target.None? || cidrBase.None? || prefixLength < 0 || prefixLength > 128 { return false; }
    GroupsMatchIsPrefix(target.value, cidrBase.value, prefixLength);
    b := CompareGroups(target.value, cidrBase.value, prefixLength);
  }

  method CompareGroups(target: seq<nat>, base: seq<nat>, prefixLength: nat) returns (b: bool)
    requires |target| == |base| == 8 && prefixLength <= 128
    ensures b <==> GroupsMatch(target, base, prefixLength)
  {
    var fullGroups, partialBits := prefixLength / 16, prefixLength % 16;
    var i := 0;
    while i < fullGroups
      invariant 0 <= i <= fullGroups && target[..i] == base[..i]
    {
      if target[i] != base[i] {
        assert target[..fullGroups][i] != base[..fullGroups][i];
        return false;
      }
      assert target[..i + 1] == target[..i] + [target[i]] && base[..i + 1] == base[..i] + [base[i]];
      i := i + 1;
    }
    if partialBits == 0 { return true; }
    var mask := Mask16(partialBits);
    return And(target[fullGroups], mask) == And(base[fullGroups], mask);
  }

  // ---- Expanding the text form ----

  function HexValue(c: char): (v: Option<nat>)
    ensures v.Some? ==> v.value < 16
  {
    if '0' <= c <= '9' then Some(c as int - '0' as int)
    else if 'a' <= c <= 'f' then Some(c as int - 'a' as int + 10)
    else if 'A' <= c <= 'F' then Some(c as int - 'A' as int + 10)
    else None
  }

  predicate IsHex(c: char) { HexValue(c).Some? }

  /** `parseInt(s, 16)` on hexadecimal digits. */
  function HexNumber(s: string): (n: nat)
    requires forall i :: 0 <= i < |s| ==> IsHex(s[i])
    ensures n < Pow2(4 * |s|)
  {
    if s == "" then 0
    else
      assert IsHex(s[|s| - 1]);
      assert Pow2(4 * |s|) == 16 * Pow2(4 * |s[..|s| - 1]|) by { FourBits(|s| - 1); }
      16 * HexNumber(s[..|s| - 1]) + HexValue(s[|s| - 1]).value
  }

  lemma FourBits(n: nat)
    ensures Pow2(4 * (n + 1)) == 16 * Pow2(4 * n)
  {
    assert Pow2(4 * n + 4) == 2 * Pow2(4 * n + 3);
    assert Pow2(4 * n + 3) == 2 * Pow2(4 * n + 2);
    assert Pow2(4 * n + 2) == 2 * Pow2(4 * n + 1);
  }

  /** One to four hexadecimal digits. */
  predicate GroupText(s: string) {
    1 <= |s| <= 4 && forall i :: 0 <= i < |s| ==> IsHex(s[i])
  }

  function ParseGroups(texts: seq<string>): (r: Option<seq<nat>>)
    ensures r.Some? <==> forall i :: 0 <= i < |texts| ==> GroupText(texts[i])
    ensures r.Some? ==> |r.value| == |texts|
    ensures r.Some? ==> forall i :: 0 <= i < |texts| ==> r.value[i] == HexNumber(texts[i])
    ensures r.Some? ==> Groups(r.value)
  {
    if texts == [] then Some([])
    else
      assert GroupText(texts[0]) ==> HexNumber(texts[0]) < WORD by {
        if GroupText(texts[0]) { PowMonotone(4 * |texts[0]|, 16); PowSixteen(); }
      }
      var rest := ParseGroups(texts[1..]);
      if !GroupText(texts[0]) || rest.None? then None else Some([HexNumber(texts[0])] + rest.value)
  }

  /** `split(':').filter(Boolean)` */
  function Fields(s: string): seq<string> { NonEmpty(Split(s, ':')) }

  function NonEmpty(parts: seq<string>): seq<string> {
    if parts == [] then []
    else if parts[0] == "" then NonEmpty(parts[1..])
    else [parts[0]] + NonEmpty(parts[1..])
  }

  function Zeros(n: nat): seq<string> { seq(n, _ => "0") }

  /** The eight group texts of an address, the zero groups of a `::` filled in. */
  function GroupsOf(address: string): (r: Option<seq<string>>)
    ensures r.Some? ==> |r.value| == 8
  {
    if !Contains(address, ":") then None
    else
      var gap := IndexOf(address, "::", 0);
      if gap == -1 then
        var head := Fields(address);
        if |head| != 8 then None else Some(head)
      else if IndexOf(address, "::", gap + 1) != -1 then None
      else
        var head, tail := Fields(address[..gap]), Fields(address[gap + 2..]);
        if 8 - |head| - |tail| < 1 then None else Some(head + Zeros(8 - |head| - |tail|) + tail)
  }

  function ExpandIpv6(address: string): (r: Option<seq<nat>>)
    ensures r.Some? ==> |r.value| == 8 && Groups(r.value)
  {
    var texts := GroupsOf(address);
    if texts.None? then None else ParseGroups(texts.value)
  }

  predicate GroupTexts(texts: seq<string>) {
    forall i :: 0 <= i < |texts| ==> GroupText(texts[i])
  }

  lemma {:induction false} NonEmptyKeeps(texts: seq<string>)
    requires forall i :: 0 <= i < |texts| ==> texts[i] != ""
    ensures NonEmpty(texts) == texts
  {
    if texts != [] { NonEmptyKeeps(texts[1..]); }
  }

  lemma NoColonInGroup(text: string)
    requires GroupText(text)
    ensures ':' !in text && text != ""
  {
    forall i | 0 <= i < |text| ensures text[i] != ':' { assert IsHex(text[i]); }
  }

  lemma FieldsOfJoined(texts: seq<string>)
    requires GroupTexts(texts)
    ensures Fields(Join(texts, ':')) == texts
  {
    if texts == [] {
      assert Split("", ':') == [""];
    } else {
      forall i | 0 <= i < |texts| ensures ':' !in texts[i] && texts[i] != "" { NoColonInGroup(texts[i]); }
      SplitJoin(texts, ':');
      NonEmptyKeeps(texts);
    }
  }

  /** Two colons never touch, and neither end is a colon. */
  predicate LoneColons(s: string) {
    && (forall i :: 0 <= i < |s| - 1 ==> !(s[i] == ':' && s[i + 1] == ':'))
    && (s != "" ==> s[0] != ':' && s[|s| - 1] != ':')
  }

  lemma {:induction false} JoinedLoneColons(texts: seq<string>)
    requires GroupTexts(texts)
    ensures LoneColons(Join(texts, ':')) && (texts != [] ==> Join(texts, ':') != "")
  {
    if texts != [] {
      NoColonInGroup(texts[0]);
      if |texts| > 1 { JoinedLoneColons(texts[1..]); }
    }
  }

  /** Eight groups written out in full expand to their values. */
  lemma ExpandFull(texts: seq<string>)
    requires GroupTexts(texts) && |texts| == 8
    ensures ExpandIpv6(Join(texts, ':')) == ParseGroups(texts) && ParseGroups(texts).Some?
  {
    var s := Join(texts, ':');
    JoinedLoneColons(texts);
    FieldsOfJoined(texts);
    assert MatchesAt(s, ":", |texts[0]|) by { assert s[|texts[0]|] == ':'; }
    IndexOfSome(s, ":", 0);
    NoGap(s);
  }

  lemma NoGap(s: string)
    requires LoneColons(s)
    ensures IndexOf(s, "::", 0) == -1
  {
    forall i: nat ensures !MatchesAt(s, "::", i) { DoubleAt(s, i); }
    IndexOfSome(s, "::", 0);
  }

  lemma DoubleAt(s: string, i: nat)
    ensures MatchesAt(s, "::", i) <==> i + 1 < |s| && s[i] == ':' && s[i + 1] == ':'
  {
    if i + 2 <= |s| {
      assert s[i..i + 2][0] == s[i] && s[i..i + 2][1] == s[i + 1];
    }
  }

  /** A `::` between (possibly empty) lists of at most seven groups stands for the missing zero groups. */
  lemma ExpandCompressed(head: seq<string>, tail: seq<string>)
    requires GroupTexts(head) && GroupTexts(tail) && |head| + |tail| <= 7
    ensures var all := head + Zeros(8 - |head| - |tail|) + tail;
            ExpandIpv6(Join(head, ':') + "::" + Join(tail, ':')) == ParseGroups(all) && ParseGroups(all).Some?
  {
    var a, b := Join(head, ':'), Join(tail, ':');
    JoinedLoneColons(head);
    JoinedLoneColons(tail);
    FieldsOfJoined(head);
    FieldsOfJoined(tail);
    ZerosAreGroups(head, tail);
    hide Join, Fields, GroupText, GroupTexts, GroupsOf, LoneColons, Zeros;
    GapSplits(a, b, a + "::" + b);
    assert GroupsOf(a + "::" + b) == Some(head + Zeros(8 - |head| - |tail|) + tail);
    Allowed(head + Zeros(8 - |head| - |tail|) + tail);
  }

  lemma Allowed(texts: seq<string>)
    requires GroupTexts(texts)
    ensures ParseGroups(texts).Some?
  {
  }

  lemma GapSplits(a: string, b: string, s: string)
    requires s == a + "::" + b && LoneColons(a) && LoneColons(b) && |Fields(a)| + |Fields(b)| <= 7
    ensures GroupsOf(s) == Some(Fields(a) + Zeros(8 - |Fields(a)| - |Fields(b)|) + Fields(b))
  {
    hide Fields, Contains, MatchesAt, GroupsOf, IndexOf, LoneColons;
    OneGap(a, b);
    assert s[..|a|] == a && s[|a| + 2..] == b;
    FillGap(s, |a|);
  }

  /** An address with one gap, at `gap`. */
  lemma FillGap(s: string, gap: nat)
    requires gap + 2 <= |s| && Contains(s, ":")
    requires IndexOf(s, "::", 0) == gap && IndexOf(s, "::", gap + 1) == -1
    requires |Fields(s[..gap])| + |Fields(s[gap + 2..])| <= 7
    ensures var head, tail := Fields(s[..gap]), Fields(s[gap + 2..]);
            GroupsOf(s) == Some(head + Zeros(8 - |head| - |tail|) + tail)
  {
    hide Fields, Contains, IndexOf, Zeros, MatchesAt;
  }

  lemma ZerosAreGroups(head: seq<string>, tail: seq<string>)
    requires GroupTexts(head) && GroupTexts(tail) && |head| + |tail| <= 7
    ensures GroupTexts(head + Zeros(8 - |head| - |tail|) + tail)
  {
    assert IsHex("0"[0]);
  }

  /** The gap is where it was put, and there is no other. */
  lemma OneGap(a: string, b: string)
    requires LoneColons(a) && LoneColons(b)
    ensures var s := a + "::" + b;
            IndexOf(s, "::", 0) == |a| && IndexOf(s, "::", |a| + 1) == -1 && Contains(s, ":")
  {
    hide LoneColons, IndexOf;
    var s := a + "::" + b;
    GapIsThere(a, b);
    forall i: nat | i != |a| ensures !MatchesAt(s, "::", i) { OnlyGap(a, b, i); }
    hide MatchesAt;
    IndexOfFirst(s, "::", 0, |a|);
    IndexOfSome(s, "::", |a| + 1);
    IndexOfSome(s, ":", 0);
  }

  lemma GapIsThere(a: string, b: string)
    ensures MatchesAt(a + "::" + b, "::", |a|) && MatchesAt(a + "::" + b, ":", |a|)
  {
    var s := a + "::" + b;
    DoubleAt(s, |a|);
    assert s[|a|..|a| + 1] == [s[|a|]];
  }

  lemma OnlyGap(a: string, b: string, i: nat)
    requires LoneColons(a) && LoneColons(b) && i != |a|
    ensures !MatchesAt(a + "::" + b, "::", i)
  {
    var s := a + "::" + b;
    DoubleAt(s, i);
    if i + 1 < |a| { assert s[i] == a[i] && s[i + 1] == a[i + 1]; }
    if |a| + 2 <= i < |s| - 1 { assert s[i] == b[i - |a| - 2] && s[i + 1] == b[i - |a| - 1]; }
  }

  // ---- IPv4 ----

  predicate Digits(s: string) {
    s != "" && forall i :: 0 <= i < |s| ==> '0' <= s[i] <= '9'
  }

  function Decimal(s: string): nat
    requires forall i :: 0 <= i < |s| ==> '0' <= s[i] <= '9'
  {
    if s == "" then 0 else 10 * Decimal(s[..|s| - 1]) + (s[|s| - 1] as int - '0' as int)
  }

  predicate OctetText(s: string) { Digits(s) && Decimal(s) <= 255 }

  /** The word with the given octets, most significant first. */
  function Word(a: nat, b: nat, c: nat, d: nat): nat {
    ((a * 256 + b) * 256 + c) * 256 + d
  }

  /** Four decimal octets, or nothing. */
  function Ipv4Word(ip: string): (r: Option<nat>)
    ensures r.Some? ==> r.value < 0x1_0000_0000
  {
    var parts := Split(ip, '.');
    if |parts| == 4 && forall i :: 0 <= i < 4 ==> OctetText(parts[i])
    then Some(Word(Decimal(parts[0]), Decimal(parts[1]), Decimal(parts[2]), Decimal(parts[3])))
    else None
  }

  /** The word of the octets so far. */
  function Shifted(parts: seq<string>): nat
    requires forall i :: 0 <= i < |parts| ==> OctetText(parts[i])
  {
    if parts == [] then 0 else assert OctetText(parts[|parts| - 1]); Shifted(parts[..|parts| - 1]) * 256 + Decimal(parts[|parts| - 1])
  }

  lemma PowsOfTwo()
    ensures Pow2(8) == 256 && Pow2(32) == 0x1_0000_0000
  {
    assert Pow2(8) == 256 by { assert Pow2(4) == 16; }
    PowSixteen();
    PowSum(16, 16);
  }

  /** One round of the loop: shift, then put the octet below. */
  lemma ShiftIn(x: nat, n: nat)
    requires x < 0x100_0000 && n <= 255
    ensures Or(ShiftLeft(x, 8, 32), n) == x * 256 + n
  {
    PowsOfTwo();
    Small(x * 256, 0x1_0000_0000);
    OrBelow(x, n, 8);
  }

  /** `ipv4ToInt`, each shift in a 32-bit word. */
  method Ipv4ToInt(ip: string) returns (r: Option<nat>)
    ensures r == Ipv4Word(ip)
  {
    hide Or, ShiftLeft, Decimal, Split, Word;
    var parts := Split(ip, '.');
    if |parts| != 4 { return None; }
    var result: nat := 0;
    var i := 0;
    while i < |parts|
      invariant 0 <= i <= 4 && |parts| == 4
      invariant forall j :: 0 <= j < i ==> OctetText(parts[j])
      invariant result == Shifted(parts[..i]) && result < [1, 0x100, 0x1_0000, 0x100_0000, 0x1_0000_0000][i]
    {
      if !Digits(parts[i]) || Decimal(parts[i]) > 255 { return None; }
      assert parts[..i + 1][..i] == parts[..i];
      ShiftIn(result, Decimal(parts[i]));
      result := Or(ShiftLeft(result, 8, 32), Decimal(parts[i]));
      i := i + 1;
    }
    FourParts(parts);
    assert parts[..4] == parts;
    return Some(result);
  }

  lemma FourParts(parts: seq<string>)
    requires |parts| == 4 && forall i :: 0 <= i < 4 ==> OctetText(parts[i])
    ensures Shifted(parts) == Word(Decimal(parts[0]), Decimal(parts[1]), Decimal(parts[2]), Decimal(parts[3]))
  {
    hide Decimal;
    assert parts[..3][..2] == parts[..2] && parts[..2][..1] == parts[..1] && parts[..1][..0] == [];
    assert Shifted(parts[..1]) == Decimal(parts[0]);
    assert Shifted(parts[..2]) == Shifted(parts[..1]) * 256 + Decimal(parts[1]);
    assert Shifted(parts[..3]) == Shifted(parts[..2]) * 256 + Decimal(parts[2]);
  }

  /** Different octets give different words, so nothing of the address is lost. */
  lemma WordInjective(a: nat, b: nat, c: nat, d: nat, a2: nat, b2: nat, c2: nat, d2: nat)
    requires b < 256 && c < 256 && d < 256 && b2 < 256 && c2 < 256 && d2 < 256
    ensures Word(a, b, c, d) == Word(a2, b2, c2, d2) <==> a == a2 && b == b2 && c == c2 && d == d2
  {
    LastOctet((a * 256 + b) * 256 + c, d, (a2 * 256 + b2) * 256 + c2, d2);
    LastOctet(a * 256 + b, c, a2 * 256 + b2, c2);
    LastOctet(a, b, a2, b2);
  }

  lemma LastOctet(x: nat, d: nat, y: nat, e: nat)
    requires d < 256 && e < 256
    ensures x * 256 + d == y * 256 + e <==> x == y && d == e
  {
  }

  /** `prefixLength === 0 ? 0 : (0xffffffff << (32 - prefixLength)) >>> 0` */
  function Mask32(p: nat): nat
    requires p <= 32
  {
    if p == 0 then 0 else ShiftLeft(0xffff_ffff, 32 - p, 32)
  }

  /** The masked comparison is equality of the quotients by 2^(32 - p), for every p. */
  lemma Mask32ComparesQuotients(a: nat, b: nat, p: nat)
    requires a < 0x1_0000_0000 && b < 0x1_0000_0000 && p <= 32
    ensures And(a, Mask32(p)) == And(b, Mask32(p)) <==> a / Pow2(32 - p) == b / Pow2(32 - p)
  {
    hide Pow2;
    PowsOfTwo();
    if p == 0 {
      Small(a, Pow2(32));
      Small(b, Pow2(32));
    } else {
      ShiftedOnes(p, 32 - p);
      MaskComparesQuotients(a, b, p, 32 - p);
    }
  }

  // ---- Allowlist entries with a prefix ----

  /** The answer for an allowlist entry with base and prefix length. */
  predicate Matches(target: string, base: string, p: int) {
    match (Ipv4Word(target), Ipv4Word(base))
    case (Some(t), Some(c)) => 0 <= p <= 32 && t / Pow2(32 - p) == c / Pow2(32 - p)
    case _ => SamePrefix6(target, base, p)
  }

  /** The CIDR branch of `matchesAllowlistEntry`, on the normalized target, base and prefix number. */
  method MatchesCidr(target: string, base: string, prefixLength: int) returns (b: bool)
    ensures b <==> Matches(target, base, prefixLength)
  {
    hide And, Pow2, Mask32, SamePrefix6;
    var target4 := Ipv4ToInt(target);
    var base4 := Ipv4ToInt(base);
    if target4.Some? && base4.Some? {
      if prefixLength < 0 || prefixLength > 32 { return false; }
      var mask := Mask32(prefixLength);
      Mask32ComparesQuotients(target4.value, base4.value, prefixLength);
      return And(target4.value, mask) == And(base4.value, mask);
    }
    b := Ipv6MatchesCidr(target, base, prefixLength);
  }
}
