/**
 A JavaScript `Map`: a lookup table that also remembers the order in which its keys were first
 inserted. The gateway's stores evict in that order, so the order is part of their state.
 */
module InsertionMap {
  datatype Map<K(==), V> = Map(keys: seq<K>, vals: map<K, V>)
  {
    ghost predicate Valid() {
      Distinct(keys) && vals.Keys == Elements(keys)
    }

    predicate Has(k: K) { k in vals }

    function Size(): nat { |keys| }

    /** `set`: an existing key keeps its place, a new key goes to the end. */
    function Set(k: K, v: V): Map<K, V> {
      Map(if k in vals then keys else keys + [k], vals[k := v])
    }

    function Delete(k: K): Map<K, V> {
      Map(Removed(keys, k), map x | x in vals && x != k :: vals[x])
    }
  }

  function EmptyMap<K(==), V>(): Map<K, V> { Map([], map[]) }

  ghost predicate Distinct<K>(s: seq<K>) {
    forall i, j :: 0 <= i < j < |s| ==> s[i] != s[j]
  }

  function Removed<K(==)>(s: seq<K>, k: K): (r: seq<K>)
    ensures |r| <= |s|
  {
    if s == [] then []
    else if s[0] == k then Removed(s[1..], k)
    else [s[0]] + Removed(s[1..], k)
  }

  lemma {:induction false} RemovedIn<K>(s: seq<K>, k: K, x: K)
    ensures x in Removed(s, k) <==> x in s && x != k
  {
    if s != [] { RemovedIn(s[1..], k, x); }
  }

  lemma {:induction false} RemovedDistinct<K>(s: seq<K>, k: K)
    requires Distinct(s)
    ensures Distinct(Removed(s, k))
    ensures |Removed(s, k)| == if k in s then |s| - 1 else |s|
  {
    if s != [] {
      RemovedDistinct(s[1..], k);
      RemovedIn(s[1..], k, s[0]);
    }
  }

  ghost function Elements<K>(s: seq<K>): set<K> { set k | k in s }

  lemma {:induction false} RemovedElements<K>(s: seq<K>, k: K)
    ensures Elements(Removed(s, k)) == Elements(s) - {k}
  {
    if s != [] {
      RemovedElements(s[1..], k);
      assert Elements(s) == {s[0]} + Elements(s[1..]);
      var r := Removed(s[1..], k);
      assert Elements([s[0]] + r) == {s[0]} + Elements(r);
    }
  }

  lemma DeleteValid<K, V>(m: Map<K, V>, k: K)
    requires m.Valid()
    ensures m.Delete(k).Valid()
    ensures m.Delete(k).Size() == if m.Has(k) then m.Size() - 1 else m.Size()
  {
    RemovedDistinct(m.keys, k);
    RemovedElements(m.keys, k);
    assert m.Delete(k).vals.Keys == m.vals.Keys - {k};
  }

  lemma SetValid<K, V>(m: Map<K, V>, k: K, v: V)
    requires m.Valid()
    ensures m.Set(k, v).Valid() && m.Set(k, v).Size() == if m.Has(k) then m.Size() else m.Size() + 1
  {
    assert Elements(m.keys + [k]) == Elements(m.keys) + {k};
  }

  // ---- The keys behind a key ----

  /** The keys that were inserted after `k` and are still there. */
  function Later<K(==)>(s: seq<K>, k: K): seq<K> {
    if s == [] then []
    else if s[0] == k then s[1..]
    else Later(s[1..], k)
  }

  function Behind<K(==)>(s: seq<K>, k: K): nat { |Later(s, k)| }

  lemma {:induction false} LaterRemoved<K>(s: seq<K>, k: K, x: K)
    requires k != x
    ensures Elements(Later(Removed(s, x), k)) <= Elements(Later(s, k))
  {
    if s != [] {
      if s[0] == k { RemovedElements(s[1..], x); } else { LaterRemoved(s[1..], k, x); }
    }
  }

  lemma {:induction false} LaterAppended<K>(s: seq<K>, k: K, x: K)
    requires k in s
    ensures Later(s + [x], k) == Later(s, k) + [x]
  {
    assert (s + [x])[1..] == s[1..] + [x];
    if s[0] != k { LaterAppended(s[1..], k, x); }
  }

  lemma {:induction false} LaterLast<K>(s: seq<K>, k: K)
    requires k !in s
    ensures Later(s + [k], k) == []
  {
    if s != [] {
      LaterLast(s[1..], k);
      assert (s + [k])[1..] == s[1..] + [k];
    }
  }

  /** Deleting from the front until `|s| - n` keys are left spares a key with fewer keys behind it. */
  lemma {:induction false} LaterDropped<K>(s: seq<K>, k: K, n: nat)
    requires Distinct(s) && k in s && n <= |s| && Behind(s, k) < |s| - n
    ensures k in s[n..] && Later(s[n..], k) == Later(s, k)
    decreases n
  {
    if n > 0 {
      LaterDropped(s[1..], k, n - 1);
      assert s[1..][n - 1..] == s[n..];
    }
  }

  lemma {:induction false} BehindGone<K>(s: seq<K>, k: K, n: nat)
    requires Distinct(s) && k in s && n <= |s| && Behind(s, k) >= |s| - n
    ensures k !in s[n..]
    decreases n
  {
    BehindBounded(s, k);
    if s[0] == k {
      assert forall i :: 0 <= i < |s| - n ==> s[n..][i] == s[n + i];
    } else {
      BehindGone(s[1..], k, n - 1);
      assert s[1..][n - 1..] == s[n..];
    }
  }

  lemma {:induction false} BehindBounded<K>(s: seq<K>, k: K)
    requires k in s
    ensures Behind(s, k) < |s|
  {
    if s[0] != k { BehindBounded(s[1..], k); }
  }

  /** Different keys that all lie in a set are at most as many as the set has. */
  lemma {:induction false} DistinctFit<K>(s: seq<K>, others: set<K>)
    requires Distinct(s) && Elements(s) <= others
    ensures |s| <= |others|
  {
    if s != [] {
      assert s[0] in Elements(s);
      assert forall k :: k in Elements(s[1..]) ==> k in Elements(s) && k != s[0];
      DistinctFit(s[1..], others - {s[0]});
    }
  }

  lemma {:induction false} LaterDistinct<K>(s: seq<K>, k: K)
    requires Distinct(s)
    ensures Distinct(Later(s, k))
  {
    if s != [] && s[0] != k { LaterDistinct(s[1..], k); }
  }
}
