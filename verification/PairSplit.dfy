/**
 Splitting a conversation for compression without tearing tool-call/result pairs apart
 (packages/core/src/compression-utils.ts:14-96, 138-184).
 */
module PairSplit {
  datatype Role = System | User | Assistant | Tool

  /** `id` stands for object identity. */
  datatype Message = Message(role: Role, id: nat)

  /** An assistant message directly followed by a tool message. */
  predicate IsPair(messages: seq<Message>, i: int) {
    0 <= i < |messages| - 1 && messages[i].role == Assistant && messages[i + 1].role == Tool
  }

  /** The call positions of all pairs below `n`; the result is the next message. */
  function Calls(messages: seq<Message>, n: nat): (calls: seq<nat>)
    requires n < |messages| || n == 0
    ensures forall k :: 0 <= k < |calls| ==> calls[k] < n && IsPair(messages, calls[k])
    ensures forall i :: 0 <= i < n && IsPair(messages, i) ==> i in calls
  {
    if n == 0 then []
    else if IsPair(messages, n - 1) then Calls(messages, n - 1) + [n - 1] else Calls(messages, n - 1)
  }

  method IdentifyToolPairs(messages: seq<Message>) returns (calls: seq<nat>)
    ensures calls == Calls(messages, if |messages| > 0 then |messages| - 1 else 0)
  {
    calls := [];
    var i := 0;
    while i < |messages| - 1
      invariant 0 <= i && (i < |messages| || i == 0)
      invariant calls == Calls(messages, i)
    {
      if messages[i].role == Assistant && messages[i + 1].role == Tool {
        calls := calls + [i];
      }
      i := i + 1;
    }
  }

  /** A boundary that no pair crosses: its result on one side, its call on the other. */
  predicate Clean(messages: seq<Message>, boundary: nat) {
    forall i :: IsPair(messages, i) ==> !(i < boundary <= i + 1)
  }

  /** How many system messages lead the conversation. */
  function SystemEnd(messages: seq<Message>): (n: nat)
    ensures n <= |messages| && (n < |messages| ==> messages[n].role != System)
    ensures forall i :: 0 <= i < n ==> messages[i].role == System
  {
    if messages == [] || messages[0].role != System then 0 else 1 + SystemEnd(messages[1..])
  }

  datatype Parts = Parts(toCompress: seq<Message>, toKeep: seq<Message>)

  /** The messages before the compressed part that are kept. */
  function KeptPrefix(messages: seq<Message>, keepLastN: int): nat {
    if keepLastN <= 0 then 0 else SystemEnd(messages)
  }

  /** Where the kept rest begins: the last N messages, and the call of a pair that would be torn. */
  function KeepFrom(messages: seq<Message>, keepLastN: int): (k: nat)
    ensures KeptPrefix(messages, keepLastN) <= k <= |messages|
  {
    if keepLastN <= 0 then
      if IsPair(messages, |messages| - 2) then |messages| - 2 else |messages|
    else if |messages| - SystemEnd(messages) <= keepLastN then SystemEnd(messages)
    else
      var first := |messages| - keepLastN;
      if IsPair(messages, first - 1) then first - 1 else first
  }

  function SplitParts(messages: seq<Message>, keepLastN: int): Parts {
    var prefix, from := KeptPrefix(messages, keepLastN), KeepFrom(messages, keepLastN);
    Parts(messages[prefix..from], messages[..prefix] + messages[from..])
  }

  /** Exactly the pair whose call lies right before a boundary is torn by it. */
  lemma CleanIff(messages: seq<Message>, boundary: nat)
    ensures Clean(messages, boundary) <==> !IsPair(messages, boundary - 1)
  {
  }

  // ---- The loops ----

  /** With nothing to keep, only a pair that ends the conversation is kept. */
  method SplitKeepingNone(messages: seq<Message>) returns (r: Parts)
    ensures r == SplitParts(messages, 0)
  {
    var calls := IdentifyToolPairs(messages);
    if |messages| > 0 { LastCall(messages, |messages| - 1); }
    if |calls| > 0 {
      var last := calls[|calls| - 1];
      if last + 1 == |messages| - 1 {
        assert messages[..0] + messages[last..] == messages[last..];
        return Parts(messages[..last], messages[last..]);
      }
    }
    assert messages[..0] + messages[|messages|..] == [];
    return Parts(messages, []);
  }

  /** Expand the kept zone by the call of a pair that crosses the first boundary. */
  method ExpandBoundary(messages: seq<Message>, first: nat) returns (boundary: nat)
    requires 0 < first < |messages|
    ensures boundary == (if IsPair(messages, first - 1) then first - 1 else first)
  {
    boundary := first;
    var calls := IdentifyToolPairs(messages);
    var k := 0;
    while k < |calls|
      invariant 0 <= k <= |calls|
      invariant boundary == first || (boundary == first - 1 && IsPair(messages, boundary))
      invariant boundary == first ==> forall j :: 0 <= j < k ==> calls[j] != first - 1
    {
      if calls[k] < boundary && calls[k] + 1 >= boundary {
        boundary := calls[k];
      }
      k := k + 1;
    }
  }

  method SkipSystem(messages: seq<Message>) returns (systemEnd: nat)
    ensures systemEnd == SystemEnd(messages)
  {
    systemEnd := 0;
    assert messages[0..] == messages;
    while systemEnd < |messages| && messages[systemEnd].role == System
      invariant 0 <= systemEnd <= |messages|
      invariant SystemEnd(messages) == systemEnd + SystemEnd(messages[systemEnd..])
    {
      assert messages[systemEnd..][1..] == messages[systemEnd + 1..];
      systemEnd := systemEnd + 1;
    }
  }

  /** `splitWithPairPreservation` */
  method Split(messages: seq<Message>, keepLastN: int) returns (r: Parts)
    ensures r == SplitParts(messages, keepLastN)
  {
    hide IsPair, SystemEnd;
    if keepLastN <= 0 {
      r := SplitKeepingNone(messages);
      return;
    }
    var systemEnd := SkipSystem(messages);
    var nonSystem := messages[systemEnd..];
    if |nonSystem| <= keepLastN {
      Slices(messages, systemEnd, 0);
      return Parts([], messages);
    }
    var first := |nonSystem| - keepLastN;
    var boundaryIndex := ExpandBoundary(nonSystem, first);
    PairBehind(messages, systemEnd, first - 1);
    Slices(messages, systemEnd, boundaryIndex);
    r := Parts(nonSystem[..boundaryIndex], messages[..systemEnd] + nonSystem[boundaryIndex..]);
  }

  lemma Slices(messages: seq<Message>, systemEnd: nat, k: nat)
    requires systemEnd + k <= |messages|
    ensures messages[..systemEnd] + messages[systemEnd..] == messages
    ensures messages[systemEnd..][..k] == messages[systemEnd..systemEnd + k]
    ensures messages[systemEnd..][k..] == messages[systemEnd + k..]
  {
  }

  /** The last pair found is the one that ends the list, if any pair does. */
  lemma LastCall(messages: seq<Message>, n: nat)
    requires n < |messages| || n == 0
    ensures n > 0 && IsPair(messages, n - 1) ==> Calls(messages, n) != [] && Calls(messages, n)[|Calls(messages, n)| - 1] == n - 1
  {
  }

  lemma PairBehind(messages: seq<Message>, systemEnd: nat, i: nat)
    requires systemEnd <= |messages|
    ensures IsPair(messages[systemEnd..], i) <==> IsPair(messages, systemEnd + i)
  {
  }

  // ---- What a split keeps ----

  /**
   One stretch of the messages is compressed and what is before and behind it is kept in order, and both halves of
   every pair are on the same side. With N > 0 the leading system messages and at least the last N messages behind
   them are kept: all of them when there are no more, else N, or N + 1 when a pair would be torn. Otherwise nothing
   is kept but a pair that ends the conversation.
   */
  lemma NothingLostNothingTorn(messages: seq<Message>, keepLastN: int)
    ensures var prefix, from := KeptPrefix(messages, keepLastN), KeepFrom(messages, keepLastN);
            var r := SplitParts(messages, keepLastN);
            && prefix <= from <= |messages|
            && r.toCompress == messages[prefix..from] && r.toKeep == messages[..prefix] + messages[from..]
            && multiset(r.toCompress) + multiset(r.toKeep) == multiset(messages)
            && (keepLastN > 0 ==> LeadingSystem(messages, prefix))
            && (keepLastN <= 0 ==>
                  (prefix == 0 &&
                   from == if messages == [] || Clean(messages, |messages| - 1) then |messages| else |messages| - 2))
            && Clean(messages, prefix) && Clean(messages, from)
            && (forall i :: IsPair(messages, i) ==> (prefix <= i < from <==> prefix <= i + 1 < from))
            && (keepLastN > 0 && |messages| - prefix <= keepLastN ==> r == Parts([], messages))
            && (keepLastN > 0 && |messages| - prefix > keepLastN ==>
                  |messages| - from == if Clean(messages, |messages| - keepLastN) then keepLastN else keepLastN + 1)
  {
    var prefix, from := KeptPrefix(messages, keepLastN), KeepFrom(messages, keepLastN);
    CleanIff(messages, prefix);
    CleanIff(messages, from);
    if messages != [] { CleanIff(messages, |messages| - 1); }
    if 0 < keepLastN < |messages| { CleanIff(messages, |messages| - keepLastN); }
    SameSide(messages, prefix, from);
    CutCovers(messages, prefix, from);
    if keepLastN > 0 && |messages| - prefix <= keepLastN { Slices(messages, prefix, 0); }
    hide Clean;
  }

  /** The first `n` messages are system messages, and the next one is none. */
  predicate LeadingSystem(messages: seq<Message>, n: nat) {
    && n <= |messages| && (forall i :: 0 <= i < n ==> messages[i].role == System)
    && (n < |messages| ==> messages[n].role != System)
  }

  lemma SameSide(messages: seq<Message>, prefix: nat, from: nat)
    ensures Clean(messages, prefix) && Clean(messages, from) ==>
              forall i :: IsPair(messages, i) ==> (prefix <= i < from <==> prefix <= i + 1 < from)
  {
  }

  lemma CutCovers(messages: seq<Message>, prefix: nat, from: nat)
    requires prefix <= from <= |messages|
    ensures multiset(messages[prefix..from]) + multiset(messages[..prefix] + messages[from..]) == multiset(messages)
  {
    assert messages == messages[..prefix] + messages[prefix..from] + messages[from..];
  }

  // ---- The child session ----

  function Without(messages: seq<Message>, m: Message): seq<Message> {
    if messages == [] then []
    else if messages[0] == m then Without(messages[1..], m)
    else [messages[0]] + Without(messages[1..], m)
  }

  /** The kept messages that are still to be pushed behind the system message. */
  function Others(system: seq<Message>, rest: seq<Message>): seq<Message> {
    if system == [] then rest else Without(rest, system[0])
  }

  /** The first system message, the summary, then the kept messages without that system message. */
  function Child(messages: seq<Message>, toKeep: seq<Message>, summary: Message): seq<Message> {
    FirstSystem(messages) + [summary] + Others(FirstSystem(messages), toKeep)
  }

  function FirstSystem(messages: seq<Message>): (s: seq<Message>)
    ensures |s| <= 1
  {
    if messages == [] then []
    else if messages[0].role == System then [messages[0]]
    else FirstSystem(messages[1..])
  }

  predicate DistinctMessages(messages: seq<Message>) {
    forall i, j :: 0 <= i < j < |messages| ==> messages[i] != messages[j]
  }

  lemma {:induction false} WithoutCounts(messages: seq<Message>, m: Message)
    requires DistinctMessages(messages)
    ensures multiset(Without(messages, m)) == multiset(messages) - multiset{m}
  {
    if messages != [] {
      WithoutCounts(messages[1..], m);
      assert messages == [messages[0]] + messages[1..];
      if messages[0] == m {
        assert m !in messages[1..];
        assert m !in multiset(messages[1..]);
      }
    }
  }

  /** The child holds every kept message, the summary, and the first system message, each once. */
  lemma ChildKeepsKept(messages: seq<Message>, keep: seq<Message>, summary: Message)
    requires DistinctMessages(keep)
    ensures var system := FirstSystem(messages);
            multiset(Child(messages, keep, summary)) == multiset(keep) + multiset{summary} +
            (if system != [] && system[0] !in keep then multiset{system[0]} else multiset{})
  {
    var system := FirstSystem(messages);
    if system == [] {
      TwoParts(summary, keep);
    } else {
      assert system == [system[0]];
      WithSystem(keep, system[0], summary);
    }
  }

  /**
   The order of the child: the first system message if there is one, the summary, then the kept messages in their
   order, without that system message.
   */
  lemma ChildOrder(messages: seq<Message>, keep: seq<Message>, summary: Message, i: nat, a: seq<Message>, b: seq<Message>)
    requires i <= |messages| && (i < |messages| ==> FirstSystemAt(messages, i))
    requires i == |messages| ==> forall j :: 0 <= j < i ==> messages[j].role != System
    requires i < |messages| && messages[i] in keep ==> keep == a + [messages[i]] + b && messages[i] !in a && messages[i] !in b
    ensures Child(messages, keep, summary) ==
            if i == |messages| then [summary] + keep
            else if messages[i] in keep then [messages[i], summary] + (a + b)
            else [messages[i], summary] + keep
  {
    hide Without, FirstSystem;
    FirstSystemIs(messages);
    if i < |messages| {
      if messages[i] in keep { WithoutOne(messages[i], a, b); } else { WithoutAbsent(keep, messages[i]); }
      assert [messages[i]] + [summary] == [messages[i], summary];
    }
  }

  lemma {:induction false} WithoutOne(m: Message, a: seq<Message>, b: seq<Message>)
    requires m !in a && m !in b
    ensures Without(a + [m] + b, m) == a + b
  {
    var all := a + [m] + b;
    if a == [] {
      assert all[1..] == b && a + b == b;
      WithoutAbsent(b, m);
    } else {
      WithoutOne(m, a[1..], b);
      assert all[1..] == a[1..] + [m] + b && all[0] == a[0];
      assert [a[0]] + (a[1..] + b) == a + b;
    }
  }

  predicate FirstSystemAt(messages: seq<Message>, i: nat)
    requires i < |messages|
  {
    messages[i].role == System && forall j :: 0 <= j < i ==> messages[j].role != System
  }

  lemma {:induction false} FirstSystemIs(messages: seq<Message>)
    ensures forall i :: 0 <= i < |messages| && FirstSystemAt(messages, i) ==> FirstSystem(messages) == [messages[i]]
    ensures (forall i :: 0 <= i < |messages| ==> messages[i].role != System) ==> FirstSystem(messages) == []
  {
    if messages != [] && messages[0].role != System {
      FirstSystemIs(messages[1..]);
      forall i | 0 <= i < |messages| && FirstSystemAt(messages, i) ensures FirstSystem(messages) == [messages[i]] {
        assert messages[1..][i - 1] == messages[i] && FirstSystemAt(messages[1..], i - 1);
      }
    }
  }

  lemma {:induction false} WithoutAbsent(messages: seq<Message>, m: Message)
    requires m !in messages
    ensures Without(messages, m) == messages
  {
    if messages != [] { WithoutAbsent(messages[1..], m); }
  }

  lemma TwoParts(summary: Message, keep: seq<Message>)
    ensures multiset([summary] + keep) == multiset(keep) + multiset{summary} + multiset{}
  {
  }

  lemma WithSystem(keep: seq<Message>, m: Message, summary: Message)
    requires DistinctMessages(keep)
    ensures multiset([m] + [summary] + Without(keep, m)) ==
            multiset(keep) + multiset{summary} + (if m !in keep then multiset{m} else multiset{})
  {
    WithoutCounts(keep, m);
    OnceIn(keep, m);
    ThreeParts(m, summary, Without(keep, m));
    assert m in keep <==> m in multiset(keep);
    hide Without, DistinctMessages;
    PutBack(multiset(keep), m, summary);
  }

  lemma ThreeParts(a: Message, b: Message, rest: seq<Message>)
    ensures multiset([a] + [b] + rest) == multiset{a} + multiset{b} + multiset(rest)
  {
  }

  lemma PutBack(k: multiset<Message>, m: Message, s: Message)
    requires k[m] <= 1
    ensures multiset{m} + multiset{s} + (k - multiset{m}) ==
            k + multiset{s} + (if m !in k then multiset{m} else multiset{})
  {
  }

  lemma {:induction false} OnceIn(messages: seq<Message>, m: Message)
    requires DistinctMessages(messages)
    ensures multiset(messages)[m] <= 1
  {
    if messages != [] {
      OnceIn(messages[1..], m);
      assert messages == [messages[0]] + messages[1..];
      if messages[0] == m { assert m !in messages[1..]; }
    }
  }

  lemma OthersStep(system: seq<Message>, rest: seq<Message>)
    requires rest != []
    ensures var more := Others(system, rest[1..]);
            Others(system, rest) == if system != [] && rest[0] == system[0] then more else [rest[0]] + more
  {
  }

  /** The pushes of `createCompressionChild`. */
  method BuildChild(messages: seq<Message>, toKeep: seq<Message>, summary: Message) returns (child: seq<Message>)
    ensures child == Child(messages, toKeep, summary)
  {
    var system := FirstSystem(messages);
    hide FirstSystem, Others;
    child := system + [summary];
    assert toKeep[0..] == toKeep;
    for i := 0 to |toKeep|
      invariant Child(messages, toKeep, summary) == child + Others(system, toKeep[i..])
    {
      OthersStep(system, toKeep[i..]);
      assert toKeep[i..][1..] == toKeep[i + 1..];
      if system != [] && toKeep[i] == system[0] {
        continue;
      }
      child := child + [toKeep[i]];
    }
    NothingLeft(system);
  }

  lemma NothingLeft(system: seq<Message>)
    ensures Others(system, []) == []
  {
  }
}
