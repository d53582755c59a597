/**
 Addresses as they are written (packages/core/src/security.ts:50-119): what their digits stand for, and the
 prefix rule on printed addresses.
 */
module AddressPrint {
  import opened Options
  import opened Text
  import opened BitMath
  import opened AddressMatch

  const HEX_DIGITS := "0123456789abcdef"
  const UPPER_HEX_DIGITS := "0123456789ABCDEF"
  const DECIMAL_DIGITS := "0123456789"

  // ---- Hexadecimal groups ----

  /** `n` in `width` hexadecimal digits. */
  function HexText(n: nat, width: nat): string {
    if width == 0 then "" else HexText(n / 16, width - 1) + [HEX_DIGITS[n % 16]]
  }

  function UpperHexText(n: nat, width: nat): string {
    if width == 0 then "" else UpperHexText(n / 16, width - 1) + [UPPER_HEX_DIGITS[n % 16]]
  }

  /** Each character is that of one text or the other. */
  predicate Mixes(s: string, lower: string, upper: string) {
    |s| == |lower| == |upper| && forall i :: 0 <= i < |s| ==> s[i] == lower[i] || s[i] == upper[i]
  }

  /** `s` writes `n` in `width` digits, each in either letter case. */
  predicate WritesHex(s: string, n: nat, width: nat) {
    Mixes(s, HexText(n, width), UpperHexText(n, width))
  }

  lemma {:induction false} HexTextLength(n: nat, width: nat)
    ensures |HexText(n, width)| == |UpperHexText(n, width)| == width
  {
    if width > 0 { HexTextLength(n / 16, width - 1); }
  }

  function Sixteenth(width: nat): nat { if width == 0 then 1 else 16 * Sixteenth(width - 1) }

  lemma HexDigits(d: nat)
    requires d < 16
    ensures HexValue(HEX_DIGITS[d]) == Some(d) && HexValue(UPPER_HEX_DIGITS[d]) == Some(d)
  {
    match d
    case 0 =>
    case 1 =>
    case 2 =>
    case 3 =>
    case 4 =>
    case 5 =>
    case 6 =>
    case 7 =>
    case 8 =>
    case 9 =>
    case 10 =>
    case 11 =>
    case 12 =>
    case 13 =>
    case 14 =>
    case _ =>
  }

  /** The last digit, and what stands before it. */
  lemma LastHexDigit(s: string, n: nat, width: nat)
    requires width > 0 && WritesHex(s, n, width)
    ensures |s| == width && WritesHex(s[..width - 1], n / 16, width - 1) && HexValue(s[width - 1]) == Some(n % 16)
  {
    hide HexValue;
    HexTextLength(n, width);
    var low, up := HexText(n, width), UpperHexText(n, width);
    assert low[..width - 1] == HexText(n / 16, width - 1) && up[..width - 1] == UpperHexText(n / 16, width - 1);
    HexDigits(n % 16);
    assert s[width - 1] == low[width - 1] || s[width - 1] == up[width - 1];
  }

  /** Printing a number with enough digits and reading it back gives the number, in either letter case. */
  lemma {:induction false} HexReadBack(s: string, n: nat, width: nat)
    requires n < Sixteenth(width) && WritesHex(s, n, width)
    ensures (forall i :: 0 <= i < |s| ==> IsHex(s[i])) && HexNumber(s) == n
  {
    HexTextLength(n, width);
    if width > 0 {
      hide WritesHex, HexValue;
      LastHexDigit(s, n, width);
      var front := s[..width - 1];
      HexReadBack(front, n / 16, width - 1);
      forall i | 0 <= i < |s| ensures IsHex(s[i]) { if i < width - 1 { assert front[i] == s[i]; } }
    }
  }

  /** The letter a hexadecimal digit is in lower case. */
  function LowerHex(c: char): char { if 'A' <= c <= 'F' then (c as int + 32) as char else c }

  lemma SameHexValue(c: char, d: char)
    requires IsHex(c) && IsHex(d)
    ensures HexValue(c) == HexValue(d) <==> LowerHex(c) == LowerHex(d)
  {
  }

  /** Two groups of equally many digits have the same value exactly when they are the same up to letter case. */
  lemma {:induction false} SameHexNumber(s: string, t: string)
    requires |s| == |t| && forall i :: 0 <= i < |s| ==> IsHex(s[i]) && IsHex(t[i])
    ensures HexNumber(s) == HexNumber(t) <==> forall i :: 0 <= i < |s| ==> LowerHex(s[i]) == LowerHex(t[i])
  {
    if s != "" {
      var n := |s| - 1;
      SameHexNumber(s[..n], t[..n]);
      SameHexValue(s[n], t[n]);
      hide HexValue, LowerHex;
      LastDigit(HexNumber(s[..n]), HexValue(s[n]).value, HexNumber(t[..n]), HexValue(t[n]).value);
      assert forall i :: 0 <= i < n ==> s[..n][i] == s[i] && t[..n][i] == t[i];
    }
  }

  lemma LastDigit(x: nat, d: nat, y: nat, e: nat)
    requires d < 16 && e < 16
    ensures 16 * x + d == 16 * y + e <==> x == y && d == e
  {
  }

  // ---- Decimal octets ----

  /** `n` in decimal digits, without leading zeros. */
  function DecimalText(n: nat): (s: string)
    ensures s != ""
  {
    if n < 10 then [DECIMAL_DIGITS[n]] else DecimalText(n / 10) + [DECIMAL_DIGITS[n % 10]]
  }

  lemma DecimalDigit(d: nat)
    requires d < 10
    ensures DECIMAL_DIGITS[d] as int == '0' as int + d
  {
    match d
    case 0 =>
    case 1 =>
    case 2 =>
    case 3 =>
    case 4 =>
    case 5 =>
    case 6 =>
    case 7 =>
    case 8 =>
    case _ =>
  }

  lemma {:induction false} DecimalReadBack(n: nat)
    ensures Digits(DecimalText(n)) && Decimal(DecimalText(n)) == n
  {
    DecimalDigit(n % 10);
    if n < 10 {
      assert [DECIMAL_DIGITS[n]][..0] == "";
    } else {
      DecimalReadBack(n / 10);
      var s := DecimalText(n);
      assert s[..|s| - 1] == DecimalText(n / 10);
    }
  }

  /** A leading zero changes nothing. */
  lemma {:induction false} LeadingZero(s: string)
    requires Digits(s)
    ensures Digits("0" + s) && Decimal("0" + s) == Decimal(s)
  {
    var z := "0" + s;
    assert z[..|z| - 1] == "0" + s[..|s| - 1];
    if |s| == 1 {
      assert s[..0] == "" && "0" + "" == "0" && "0"[..0] == "";
    } else {
      LeadingZero(s[..|s| - 1]);
    }
  }

  // ---- IPv4 addresses ----

  function Dotted(a: nat, b: nat, c: nat, d: nat): string {
    Join([DecimalText(a), DecimalText(b), DecimalText(c), DecimalText(d)], '.')
  }

  predicate Octets(a: nat, b: nat, c: nat, d: nat) { a < 256 && b < 256 && c < 256 && d < 256 }

  /** A dotted address stands for its octets, the first one most significant; a larger octet is refused. */
  lemma DottedWord(a: nat, b: nat, c: nat, d: nat)
    ensures Ipv4Word(Dotted(a, b, c, d)) ==
            if Octets(a, b, c, d) then Some(a * 0x100_0000 + b * 0x1_0000 + c * 0x100 + d) else None
  {
    hide Join, Split, Decimal, Digits, DecimalText;
    DecimalReadBack(a);
    DecimalReadBack(b);
    DecimalReadBack(c);
    DecimalReadBack(d);
    var parts := [DecimalText(a), DecimalText(b), DecimalText(c), DecimalText(d)];
    forall i | 0 <= i < 4 ensures '.' !in parts[i] { NoDot(parts[i]); }
    SplitJoin(parts, '.');
    assert parts[0] == DecimalText(a) && parts[1] == DecimalText(b) && parts[2] == DecimalText(c) && parts[3] == DecimalText(d);
  }

  lemma NoDot(s: string)
    requires Digits(s)
    ensures '.' !in s
  {
  }

  /** An allowlist entry `a.b.c.d/p` lets in exactly the dotted addresses whose words agree in their first p bits. */
  lemma DottedPrefix(a: nat, b: nat, c: nat, d: nat, a2: nat, b2: nat, c2: nat, d2: nat, p: int)
    requires Octets(a, b, c, d) && Octets(a2, b2, c2, d2)
    ensures Matches(Dotted(a, b, c, d), Dotted(a2, b2, c2, d2), p) <==>
            0 <= p <= 32 &&
            (a * 0x100_0000 + b * 0x1_0000 + c * 0x100 + d) / Pow2(32 - p) ==
            (a2 * 0x100_0000 + b2 * 0x1_0000 + c2 * 0x100 + d2) / Pow2(32 - p)
  {
    hide Ipv4Word, Dotted, SamePrefix6;
    DottedWord(a, b, c, d);
    DottedWord(a2, b2, c2, d2);
  }

  // ---- IPv6 addresses ----

  /** `s` writes the group `n` in one to four digits. */
  predicate WritesGroup(s: string, n: nat) {
    exists width: nat :: 1 <= width <= 4 && n < Sixteenth(width) && WritesHex(s, n, width)
  }

  predicate WritesGroups(texts: seq<string>, gs: seq<nat>) {
    |texts| == |gs| && forall i :: 0 <= i < |gs| ==> WritesGroup(texts[i], gs[i])
  }

  lemma GroupReadBack(s: string, n: nat)
    requires WritesGroup(s, n)
    ensures GroupText(s) && HexNumber(s) == n && n < WORD
  {
    var width: nat :| 1 <= width <= 4 && n < Sixteenth(width) && WritesHex(s, n, width);
    HexReadBack(s, n, width);
    HexTextLength(n, width);
    hide HexNumber;
    assert Sixteenth(1) == 16 && Sixteenth(2) == 256 && Sixteenth(3) == 4096 && Sixteenth(4) == 65536;
  }

  lemma GroupsReadBack(texts: seq<string>, gs: seq<nat>)
    requires WritesGroups(texts, gs)
    ensures GroupTexts(texts) && Groups(gs) && ParseGroups(texts) == Some(gs)
  {
    hide WritesGroup, HexNumber;
    forall i | 0 <= i < |gs| ensures GroupText(texts[i]) && HexNumber(texts[i]) == gs[i] && gs[i] < WORD {
      GroupReadBack(texts[i], gs[i]);
    }
    var r := ParseGroups(texts);
    assert r.Some? && r.value == gs;
  }

  /** Does the text write these eight groups, in full or with one `::` for a run of zero groups? */
  ghost predicate WritesAddress(s: string, gs: seq<nat>) {
    (exists texts :: |texts| == 8 && WritesGroups(texts, gs) && s == Join(texts, ':')) ||
    (exists head, tail, hs, ts :: Compresses(s, gs, head, tail, hs, ts))
  }

  predicate Compresses(s: string, gs: seq<nat>, head: seq<string>, tail: seq<string>, hs: seq<nat>, ts: seq<nat>) {
    && WritesGroups(head, hs) && WritesGroups(tail, ts) && |hs| + |ts| <= 7
    && gs == hs + seq(8 - |hs| - |ts|, _ => 0) + ts
    && s == Join(head, ':') + "::" + Join(tail, ':')
  }

  /** A written address expands to exactly its groups. */
  lemma AddressReadBack(s: string, gs: seq<nat>)
    requires WritesAddress(s, gs)
    ensures |gs| == 8 && Groups(gs) && ExpandIpv6(s) == Some(gs)
  {
    hide WritesGroups, ExpandIpv6, Groups;
    if texts :| |texts| == 8 && WritesGroups(texts, gs) && s == Join(texts, ':') {
      FullReadBack(texts, gs);
    } else {
      var head, tail, hs, ts :| Compresses(s, gs, head, tail, hs, ts);
      CompressedReadBack(s, gs, head, tail, hs, ts);
    }
  }

  lemma FullReadBack(texts: seq<string>, gs: seq<nat>)
    requires |texts| == 8 && WritesGroups(texts, gs)
    ensures |gs| == 8 && Groups(gs) && ExpandIpv6(Join(texts, ':')) == Some(gs)
  {
    GroupsReadBack(texts, gs);
    hide WritesGroup, GroupTexts, ParseGroups, ExpandIpv6, Join;
    ExpandFull(texts);
  }

  lemma CompressedReadBack(s: string, gs: seq<nat>, head: seq<string>, tail: seq<string>, hs: seq<nat>, ts: seq<nat>)
    requires Compresses(s, gs, head, tail, hs, ts)
    ensures |gs| == 8 && Groups(gs) && ExpandIpv6(s) == Some(gs)
  {
    GroupsReadBack(head, hs);
    GroupsReadBack(tail, ts);
    var n := 8 - |hs| - |ts|;
    var all := head + Zeros(n) + tail;
    ZeroWritten();
    forall i | 0 <= i < 8 ensures WritesGroup(all[i], gs[i]) {
      if i < |head| {
        assert all[i] == head[i] && gs[i] == hs[i];
      } else if i < |head| + n {
        assert all[i] == "0" && gs[i] == 0;
      } else {
        assert all[i] == tail[i - |head| - n] && gs[i] == ts[i - |head| - n];
      }
    }
    hide WritesGroup, GroupTexts, ParseGroups, ExpandIpv6, Join, Zeros;
    GroupsReadBack(all, gs);
    ExpandCompressed(head, tail);
  }

  lemma ZeroWritten()
    ensures WritesGroup("0", 0)
  {
    assert HexText(0, 1) == "" + ['0'] && UpperHexText(0, 1) == "" + ['0'];
    assert Sixteenth(1) == 16;
    assert WritesHex("0", 0, 1);
  }

  /** Bit `k` of an address, the most significant one first. */
  function Bit(gs: seq<nat>, k: nat): nat
    requires k < 16 * |gs|
  {
    (gs[k / 16] / Pow2(15 - k % 16)) % 2
  }

  /** An entry `base/p` lets in exactly the written addresses whose first p bits are those of the base. */
  lemma WrittenPrefix(s: string, gs: seq<nat>, base: string, hs: seq<nat>, p: int)
    requires WritesAddress(s, gs) && WritesAddress(base, hs)
    ensures |gs| == |hs| == 8 && Groups(gs) && Groups(hs)
    ensures SamePrefix6(s, base, p) <==> 0 <= p <= 128 && Number(gs) / Pow2(128 - p) == Number(hs) / Pow2(128 - p)
    ensures SamePrefix6(s, base, p) <==> 0 <= p <= 128 && forall k :: 0 <= k < p ==> Bit(gs, k) == Bit(hs, k)
  {
    AddressReadBack(s, gs);
    AddressReadBack(base, hs);
    hide *;
    SamePrefixOf(s, gs, base, hs, p);
    if 0 <= p <= 128 {
      BitsAgree(gs, hs, p);
      LeadingIs(gs, p);
      LeadingIs(hs, p);
    }
  }

  lemma SamePrefixOf(s: string, gs: seq<nat>, base: string, hs: seq<nat>, p: int)
    requires |gs| == |hs| == 8 && Groups(gs) && Groups(hs) && ExpandIpv6(s) == Some(gs) && ExpandIpv6(base) == Some(hs)
    ensures SamePrefix6(s, base, p) <==> 0 <= p <= 128 && Leading(gs, p) == Leading(hs, p)
  {
    hide ExpandIpv6, Leading;
  }

  lemma LeadingIs(gs: seq<nat>, p: nat)
    requires |gs| == 8 && Groups(gs) && p <= 128
    ensures Leading(gs, p) == Number(gs) / Pow2(128 - p)
  {
    hide Number, Pow2;
  }

  lemma {:induction false} BitsAgree(gs: seq<nat>, hs: seq<nat>, p: nat)
    requires |gs| == |hs| && p <= 16 * |gs| && Groups(gs) && Groups(hs)
    ensures Leading(gs, p) == Leading(hs, p) <==> forall k :: 0 <= k < p ==> Bit(gs, k) == Bit(hs, k)
  {
    hide Leading, Number, Bit, Pow2;
    if p == 0 {
      NothingLeads(gs);
      NothingLeads(hs);
    } else {
      BitsAgree(gs, hs, p - 1);
      OneBitMore(gs, p - 1);
      OneBitMore(hs, p - 1);
      LastBit(Leading(gs, p - 1), Bit(gs, p - 1), Leading(hs, p - 1), Bit(hs, p - 1));
    }
  }

  lemma LastBit(x: int, d: int, y: int, e: int)
    requires 0 <= d < 2 && 0 <= e < 2
    ensures 2 * x + d == 2 * y + e <==> x == y && d == e
  {
  }

  lemma NothingLeads(gs: seq<nat>)
    requires Groups(gs)
    ensures Leading(gs, 0) == 0
  {
    Small(Number(gs), Pow2(16 * |gs|));
  }

  /** One more leading bit. */
  lemma {:induction false} OneBitMore(gs: seq<nat>, k: nat)
    requires Groups(gs) && k < 16 * |gs|
    ensures Leading(gs, k + 1) == 2 * Leading(gs, k) + Bit(gs, k) && 0 <= Bit(gs, k) < 2
    decreases |gs|
  {
    hide Number, Leading;
    if k < 16 {
      BitInFirst(gs, k);
    } else {
      OneBitMore(gs[1..], k - 16);
      BitBehind(gs, k);
      BeyondFirst(gs, k);
    }
  }

  lemma BitBehind(gs: seq<nat>, k: nat)
    requires 16 <= k < 16 * |gs|
    ensures Bit(gs, k) == Bit(gs[1..], k - 16)
  {
    assert (k - 16) / 16 == k / 16 - 1 && (k - 16) % 16 == k % 16;
    assert gs[1..][k / 16 - 1] == gs[k / 16];
  }

  lemma BeyondFirst(gs: seq<nat>, k: nat)
    requires Groups(gs) && 16 <= k < 16 * |gs|
    requires Leading(gs[1..], k - 15) == 2 * Leading(gs[1..], k - 16) + Bit(gs, k)
    ensures Leading(gs, k + 1) == 2 * Leading(gs, k) + Bit(gs, k)
  {
    hide Leading, Bit;
    LeadingBeyondFirst(gs, k);
    LeadingBeyondFirst(gs, k + 1);
    assert Pow2(k - 15) == 2 * Pow2(k - 16);
    TwiceProduct(gs[0], Pow2(k - 16));
    hide Pow2;
  }

  lemma TwiceProduct(a: int, b: int)
    ensures a * (2 * b) == 2 * (a * b)
  {
  }

  lemma BitInFirst(gs: seq<nat>, k: nat)
    requires Groups(gs) && gs != [] && k < 16
    ensures Leading(gs, k + 1) == 2 * Leading(gs, k) + Bit(gs, k)
  {
    var g := gs[0];
    LeadingInFirst(gs, k);
    if k < 15 {
      LeadingInFirst(gs, k + 1);
    } else {
      LeadingSixteen(gs);
    }
    assert k / 16 == 0 && k % 16 == k;
    assert Pow2(16 - k) == 2 * Pow2(15 - k);
    Halve(g, Pow2(15 - k));
    assert k == 15 ==> Pow2(0) == 1;
    hide Leading, Number;
  }

  lemma LeadingSixteen(gs: seq<nat>)
    requires Groups(gs) && gs != []
    ensures Leading(gs, 16) == gs[0]
  {
    LeadingBeyondFirst(gs, 16);
    assert Pow2(0) == 1;
    hide Leading;
  }

  lemma Halve(g: nat, d: nat)
    requires d > 0
    ensures g / d == 2 * (g / (2 * d)) + (g / d) % 2
  {
    DivDiv(g, d, 2);
    hide Pow2;
    assert (g / d) == 2 * ((g / d) / 2) + (g / d) % 2;
  }
}
