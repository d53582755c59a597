/**
 The in-memory checkpoint store with its per-session index, restore and diff
 (packages/core/src/checkpoint.ts:64-159, 179-255).
 */
module CheckpointStore {
  import opened Options
  import opened InsertionMap
  import Sequences

  /** `indexOf` and `splice`: without the first occurrence. */
  function RemoveFirst(ids: seq<string>, id: string): seq<string> {
    if ids == [] then []
    else if ids[0] == id then ids[1..]
    else [ids[0]] + RemoveFirst(ids[1..], id)
  }

  datatype Checkpoint = Checkpoint(id: string, sessionId: string, iteration: int,
                                   messages: seq<string>, messageCursor: Option<nat>)

  type Index = map<string, seq<string>>

  /** The store's two maps: the checkpoints, and per session the ids in save order. */
  datatype Store = Store(byId: Map<string, Checkpoint>, bySession: Index)

  // ---- The plain list that a store stands for ----

  function Ids(cs: seq<Checkpoint>): (ids: seq<string>)
    ensures |ids| == |cs|
    ensures forall i :: 0 <= i < |cs| ==> ids[i] == cs[i].id
  {
    seq(|cs|, i requires 0 <= i < |cs| => cs[i].id)
  }

  function OfSession(cs: seq<Checkpoint>, sid: string): seq<Checkpoint> {
    if cs == [] then []
    else if cs[0].sessionId == sid then [cs[0]] + OfSession(cs[1..], sid)
    else OfSession(cs[1..], sid)
  }

  function WithoutId(cs: seq<Checkpoint>, id: string): seq<Checkpoint> {
    if cs == [] then []
    else if cs[0].id == id then WithoutId(cs[1..], id)
    else [cs[0]] + WithoutId(cs[1..], id)
  }

  function WithoutSession(cs: seq<Checkpoint>, sid: string): seq<Checkpoint> {
    if cs == [] then []
    else if cs[0].sessionId == sid then WithoutSession(cs[1..], sid)
    else [cs[0]] + WithoutSession(cs[1..], sid)
  }

  /** A save appends, and drops the oldest when the cap is exceeded. */
  function SavedList(cs: seq<Checkpoint>, cp: Checkpoint, max: Option<nat>): seq<Checkpoint> {
    var all := cs + [cp];
    if max.Some? && |all| > max.value then all[1..] else all
  }

  ghost predicate IndexFits(index: Index, cs: seq<Checkpoint>, sid: string) {
    var own := OfSession(cs, sid);
    if own == [] then sid !in index else sid in index && index[sid] == Ids(own)
  }

  ghost predicate MapFits(byId: Map<string, Checkpoint>, cs: seq<Checkpoint>) {
    && byId.keys == Ids(cs) && Distinct(Ids(cs)) && byId.vals.Keys == Elements(Ids(cs))
    && (forall i :: 0 <= i < |cs| ==> cs[i].id in byId.vals && byId.vals[cs[i].id] == cs[i])
  }

  /**
   Both maps together stand for one plain list of checkpoints in save order. Every operation is proved
   to act on that list in the obvious way, which is what makes the index trustworthy.
   */
  ghost predicate Represents(s: Store, cs: seq<Checkpoint>) {
    MapFits(s.byId, cs) && forall sid :: IndexFits(s.bySession, cs, sid)
  }

  // ---- The operations on the two maps ----

  /** Take an id out of a session's list; an empty list is dropped. */
  function Unindex(index: Index, sid: string, id: string): Index {
    if sid !in index then index
    else
      var ids := RemoveFirst(index[sid], id);
      if ids == [] then index - {sid} else index[sid := ids]
  }

  function Saved(s: Store, cp: Checkpoint, max: Option<nat>): Store {
    var ids := if cp.sessionId in s.bySession then s.bySession[cp.sessionId] else [];
    var t := Store(s.byId.Set(cp.id, cp), s.bySession[cp.sessionId := ids + [cp.id]]);
    if max.Some? && t.byId.Size() > max.value && t.byId.keys[0] in t.byId.vals then
      var oldest := t.byId.keys[0];
      Store(t.byId.Delete(oldest), Unindex(t.bySession, t.byId.vals[oldest].sessionId, oldest))
    else t
  }

  function Deleted(s: Store, id: string): (Store, bool) {
    if !s.byId.Has(id) then (s, false)
    else (Store(s.byId.Delete(id), Unindex(s.bySession, s.byId.vals[id].sessionId, id)), true)
  }

  function DropAll(byId: Map<string, Checkpoint>, ids: seq<string>): Map<string, Checkpoint>
    decreases |ids|
  {
    if ids == [] then byId else DropAll(byId.Delete(ids[0]), ids[1..])
  }

  function CountHeld(byId: Map<string, Checkpoint>, ids: seq<string>): nat
    decreases |ids|
  {
    if ids == [] then 0
    else (if byId.Has(ids[0]) then 1 else 0) + CountHeld(byId.Delete(ids[0]), ids[1..])
  }

  function DeletedSession(s: Store, sid: string): (Store, nat) {
    if sid !in s.bySession then (s, 0)
    else (Store(DropAll(s.byId, s.bySession[sid]), s.bySession - {sid}), CountHeld(s.byId, s.bySession[sid]))
  }

  /** The checkpoints behind a list of ids; unknown ids are skipped. */
  function Lookup(byId: Map<string, Checkpoint>, ids: seq<string>): seq<Checkpoint> {
    if ids == [] then []
    else if ids[0] in byId.vals then [byId.vals[ids[0]]] + Lookup(byId, ids[1..])
    else Lookup(byId, ids[1..])
  }

  // ---- Sorting ----

  /** Insert after every element with the same or a smaller iteration. */
  function Insert(sorted: seq<Checkpoint>, cp: Checkpoint): (r: seq<Checkpoint>)
    ensures |r| == |sorted| + 1
  {
    if sorted == [] || sorted[|sorted| - 1].iteration <= cp.iteration then sorted + [cp]
    else Insert(sorted[..|sorted| - 1], cp) + [sorted[|sorted| - 1]]
  }

  /** The stable sort by iteration. */
  function StableSort(cs: seq<Checkpoint>): (r: seq<Checkpoint>)
    ensures |r| == |cs|
  {
    if cs == [] then [] else Insert(StableSort(cs[..|cs| - 1]), cs[|cs| - 1])
  }

  predicate Sorted(cs: seq<Checkpoint>) {
    forall i, j :: 0 <= i < j < |cs| ==> cs[i].iteration <= cs[j].iteration
  }

  function AtIteration(cs: seq<Checkpoint>, n: int): seq<Checkpoint> {
    if cs == [] then []
    else AtIteration(cs[..|cs| - 1], n) + (if cs[|cs| - 1].iteration == n then [cs[|cs| - 1]] else [])
  }

  lemma AtSnoc(cs: seq<Checkpoint>, cp: Checkpoint, n: int)
    ensures AtIteration(cs + [cp], n) == AtIteration(cs, n) + (if cp.iteration == n then [cp] else [])
  {
    assert (cs + [cp])[..|cs|] == cs;
  }

  lemma {:induction false} InsertSorts(sorted: seq<Checkpoint>, cp: Checkpoint)
    requires Sorted(sorted)
    ensures Sorted(Insert(sorted, cp))
    ensures forall x :: x in Insert(sorted, cp) ==> x in sorted || x == cp
  {
    if sorted != [] && sorted[|sorted| - 1].iteration > cp.iteration {
      var front, last := sorted[..|sorted| - 1], sorted[|sorted| - 1];
      InsertSorts(front, cp);
      var r := Insert(front, cp);
      forall i | 0 <= i < |r| ensures r[i].iteration <= last.iteration {
        assert r[i] in r;
        if r[i] in front {
          var j :| 0 <= j < |front| && front[j] == r[i];
          assert sorted[j] == r[i];
        }
      }
    }
  }

  lemma {:induction false} InsertStable(sorted: seq<Checkpoint>, cp: Checkpoint, n: int)
    requires Sorted(sorted)
    ensures AtIteration(Insert(sorted, cp), n) == AtIteration(sorted, n) + (if cp.iteration == n then [cp] else [])
  {
    if sorted == [] || sorted[|sorted| - 1].iteration <= cp.iteration {
      AtSnoc(sorted, cp, n);
    } else {
      var front, last := sorted[..|sorted| - 1], sorted[|sorted| - 1];
      InsertStable(front, cp, n);
      var inserted := Insert(front, cp);
      assert Insert(sorted, cp) == inserted + [last] && sorted == front + [last];
      assert cp.iteration != last.iteration;
      AtSnoc(inserted, last, n);
      AtSnoc(front, last, n);
      hide AtIteration, Insert, Sorted;
      assert n == last.iteration ==> AtIteration(front, n) + [] == AtIteration(front, n);
    }
  }

  /** The sort is sorted, and for each iteration keeps exactly its checkpoints in their old order. */
  lemma {:induction false} StableSortCorrect(cs: seq<Checkpoint>, n: int)
    ensures Sorted(StableSort(cs))
    ensures AtIteration(StableSort(cs), n) == AtIteration(cs, n)
  {
    if cs != [] {
      var front, last := cs[..|cs| - 1], cs[|cs| - 1];
      StableSortCorrect(front, n);
      InsertSorts(StableSort(front), last);
      InsertStable(StableSort(front), last, n);
    }
  }

  /** The scan of `getLatest`: the last checkpoint with the highest iteration. */
  function Latest(cs: seq<Checkpoint>): Option<Checkpoint> {
    if cs == [] then None
    else
      var before, cp := Latest(cs[..|cs| - 1]), cs[|cs| - 1];
      if before.None? || cp.iteration >= before.value.iteration then Some(cp) else before
  }

  /** `getLatest` finds what `listBySession` would list last. */
  lemma {:induction false} LatestIsLast(cs: seq<Checkpoint>)
    ensures cs == [] <==> Latest(cs).None?
    ensures cs != [] ==> Latest(cs) == Some(StableSort(cs)[|cs| - 1])
  {
    if cs != [] {
      var front := cs[..|cs| - 1];
      LatestIsLast(front);
      StableSortCorrect(front, 0);
      InsertSorts(StableSort(front), cs[|cs| - 1]);
    }
  }

  // ---- The operations act on the represented list ----

  lemma {:induction false} OfSessionConcat(a: seq<Checkpoint>, b: seq<Checkpoint>, sid: string)
    ensures OfSession(a + b, sid) == OfSession(a, sid) + OfSession(b, sid)
  {
    if a == [] {
      assert a + b == b;
    } else {
      OfSessionConcat(a[1..], b, sid);
      assert (a + b)[0] == a[0] && (a + b)[1..] == a[1..] + b;
      Sequences.Regroup([a[0]], OfSession(a[1..], sid), OfSession(b, sid));
    }
  }

  lemma OfSessionOne(cp: Checkpoint, sid: string)
    ensures OfSession([cp], sid) == if cp.sessionId == sid then [cp] else []
  {
    assert [cp][1..] == [];
  }

  lemma IdsConcat(a: seq<Checkpoint>, b: seq<Checkpoint>)
    ensures Ids(a + b) == Ids(a) + Ids(b)
  {
  }

  lemma MapSaves(byId: Map<string, Checkpoint>, cs: seq<Checkpoint>, cp: Checkpoint)
    requires MapFits(byId, cs) && !byId.Has(cp.id)
    ensures MapFits(byId.Set(cp.id, cp), cs + [cp])
  {
    IdsConcat(cs, [cp]);
    assert Ids([cp]) == [cp.id];
    assert Elements(Ids(cs) + [cp.id]) == Elements(Ids(cs)) + {cp.id};
    assert cp.id !in Elements(Ids(cs));
    assert Distinct(Ids(cs) + [cp.id]) by {
      forall i | 0 <= i < |cs| ensures Ids(cs)[i] != cp.id { assert Ids(cs)[i] in Elements(Ids(cs)); }
    }
  }

  lemma IndexSaves(index: Index, cs: seq<Checkpoint>, cp: Checkpoint, sid: string)
    requires IndexFits(index, cs, sid) && IndexFits(index, cs, cp.sessionId)
    ensures var ids := if cp.sessionId in index then index[cp.sessionId] else [];
            IndexFits(index[cp.sessionId := ids + [cp.id]], cs + [cp], sid)
  {
    OfSessionConcat(cs, [cp], sid);
    OfSessionOne(cp, sid);
    if cp.sessionId == sid {
      IdsConcat(OfSession(cs, sid), [cp]);
      assert Ids([cp]) == [cp.id];
    } else {
      assert OfSession(cs, sid) + [] == OfSession(cs, sid);
    }
  }

  lemma {:induction false} WithoutIdFits(cs: seq<Checkpoint>, id: string)
    requires Distinct(Ids(cs))
    ensures Ids(WithoutId(cs, id)) == Removed(Ids(cs), id)
    ensures forall x :: x in WithoutId(cs, id) <==> x in cs && x.id != id
  {
    if cs != [] {
      assert Ids(cs)[1..] == Ids(cs[1..]);
      WithoutIdFits(cs[1..], id);
      assert cs == [cs[0]] + cs[1..];
      var rest := WithoutId(cs[1..], id);
      IdsConcat([cs[0]], rest);
      assert Ids([cs[0]]) == [cs[0].id];
    }
  }

  lemma MapDeletes(byId: Map<string, Checkpoint>, cs: seq<Checkpoint>, id: string)
    requires MapFits(byId, cs)
    ensures MapFits(byId.Delete(id), WithoutId(cs, id))
  {
    WithoutIdFits(cs, id);
    RemovedDistinct(Ids(cs), id);
    RemovedElements(Ids(cs), id);
    var rest := WithoutId(cs, id);
    assert byId.Delete(id).vals.Keys == byId.vals.Keys - {id};
    forall i | 0 <= i < |rest| ensures rest[i].id in byId.vals && byId.vals[rest[i].id] == rest[i] && rest[i].id != id {
      assert rest[i] in rest;
      var j :| 0 <= j < |cs| && cs[j] == rest[i];
    }
  }

  lemma {:induction false} OfSessionWithoutId(cs: seq<Checkpoint>, sid: string, id: string)
    ensures OfSession(WithoutId(cs, id), sid) == WithoutId(OfSession(cs, sid), id)
  {
    if cs != [] {
      OfSessionWithoutId(cs[1..], sid, id);
      assert ([cs[0]] + WithoutId(cs[1..], id))[1..] == WithoutId(cs[1..], id);
      assert ([cs[0]] + OfSession(cs[1..], sid))[1..] == OfSession(cs[1..], sid);
    }
  }

  lemma {:induction false} WithoutAbsent(cs: seq<Checkpoint>, id: string)
    requires forall x :: x in cs ==> x.id != id
    ensures WithoutId(cs, id) == cs
  {
    if cs != [] {
      assert forall x :: x in cs[1..] ==> x in cs;
      WithoutAbsent(cs[1..], id);
    }
  }

  lemma {:induction false} RemoveFirstIds(cs: seq<Checkpoint>, id: string)
    requires Distinct(Ids(cs))
    ensures RemoveFirst(Ids(cs), id) == Ids(WithoutId(cs, id))
  {
    if cs != [] {
      assert Ids(cs)[1..] == Ids(cs[1..]) && Ids(cs)[0] == cs[0].id;
      if cs[0].id == id {
        forall x | x in cs[1..] ensures x.id != id {
          var j :| 0 <= j < |cs[1..]| && cs[1..][j] == x;
          assert Ids(cs)[j + 1] == x.id;
        }
        WithoutAbsent(cs[1..], id);
      } else {
        RemoveFirstIds(cs[1..], id);
        IdsConcat([cs[0]], WithoutId(cs[1..], id));
        assert Ids([cs[0]]) == [cs[0].id];
      }
    }
  }

  lemma {:induction false} OfSessionMembers(cs: seq<Checkpoint>, sid: string)
    ensures forall x :: x in OfSession(cs, sid) <==> x in cs && x.sessionId == sid
    ensures Distinct(Ids(cs)) ==> Distinct(Ids(OfSession(cs, sid)))
  {
    if cs != [] {
      hide Distinct, Ids;
      OfSessionMembers(cs[1..], sid);
      assert cs == [cs[0]] + cs[1..];
      if Distinct(Ids(cs)) { DistinctHead(cs, OfSession(cs[1..], sid)); }
    }
  }

  /** Put back in front, the first checkpoint differs in its id from some of the later ones. */
  lemma DistinctHead(cs: seq<Checkpoint>, own: seq<Checkpoint>)
    requires cs != [] && Distinct(Ids(cs)) && forall x :: x in own ==> x in cs[1..]
    ensures Distinct(Ids(cs[1..]))
    ensures Distinct(Ids(own)) ==> Distinct(Ids([cs[0]] + own))
  {
    assert Ids(cs)[1..] == Ids(cs[1..]);
    forall i | 0 <= i < |own| ensures own[i].id != cs[0].id {
      assert own[i] in own;
      var j :| 0 <= j < |cs[1..]| && cs[1..][j] == own[i];
      assert Ids(cs)[j + 1] == own[i].id;
    }
    if Distinct(Ids(own)) { DistinctCons(cs[0], own); }
  }

  lemma DistinctCons(cp: Checkpoint, cs: seq<Checkpoint>)
    requires Distinct(Ids(cs)) && forall i :: 0 <= i < |cs| ==> cs[i].id != cp.id
    ensures Distinct(Ids([cp] + cs))
  {
    IdsConcat([cp], cs);
  }

  /** Taking `cs[k]` out of the index of its session fits the list without it. */
  lemma IndexDeletes(index: Index, cs: seq<Checkpoint>, k: nat, sid: string)
    requires k < |cs| && Distinct(Ids(cs))
    requires IndexFits(index, cs, sid) && IndexFits(index, cs, cs[k].sessionId)
    ensures IndexFits(Unindex(index, cs[k].sessionId, cs[k].id), WithoutId(cs, cs[k].id), sid)
  {
    hide OfSession, WithoutId, RemoveFirst, Distinct, Ids;
    var cp := cs[k];
    OfSessionWithoutId(cs, sid, cp.id);
    if sid == cp.sessionId {
      OwnIds(cs, k);
      RemoveFirstIds(OfSession(cs, sid), cp.id);
    } else {
      NotOfSession(cs, k, sid);
      WithoutAbsent(OfSession(cs, sid), cp.id);
    }
  }

  lemma OwnIds(cs: seq<Checkpoint>, k: nat)
    requires k < |cs| && Distinct(Ids(cs))
    ensures OfSession(cs, cs[k].sessionId) != [] && Distinct(Ids(OfSession(cs, cs[k].sessionId)))
  {
    OfSessionMembers(cs, cs[k].sessionId);
    assert cs[k] in OfSession(cs, cs[k].sessionId);
  }

  lemma NotOfSession(cs: seq<Checkpoint>, k: nat, sid: string)
    requires k < |cs| && Distinct(Ids(cs)) && cs[k].sessionId != sid
    ensures forall x :: x in OfSession(cs, sid) ==> x.id != cs[k].id
  {
    hide OfSession, Distinct, Ids;
    OfSessionMembers(cs, sid);
    forall x | x in OfSession(cs, sid) ensures x.id != cs[k].id {
      var j :| 0 <= j < |cs| && cs[j] == x;
      DifferentIds(cs, j, k);
    }
  }

  lemma DifferentIds(cs: seq<Checkpoint>, j: nat, k: nat)
    requires j < |cs| && k < |cs| && j != k && Distinct(Ids(cs))
    ensures cs[j].id != cs[k].id
  {
    assert Ids(cs)[j] != Ids(cs)[k];
  }

  /** Deleting a stored checkpoint deletes it from the list; deleting an unknown id changes nothing. */
  lemma DeleteRefines(s: Store, cs: seq<Checkpoint>, id: string)
    requires Represents(s, cs)
    ensures Represents(Deleted(s, id).0, WithoutId(cs, id))
    ensures Deleted(s, id).1 <==> exists i :: 0 <= i < |cs| && cs[i].id == id
  {
    if s.byId.Has(id) {
      assert id in Elements(Ids(cs));
      var k :| 0 <= k < |cs| && Ids(cs)[k] == id;
      MapDeletes(s.byId, cs, id);
      forall sid ensures IndexFits(Unindex(s.bySession, cs[k].sessionId, id), WithoutId(cs, id), sid) {
        assert IndexFits(s.bySession, cs, sid) && IndexFits(s.bySession, cs, cs[k].sessionId);
        IndexDeletes(s.bySession, cs, k, sid);
      }
    } else {
      forall x | x in cs ensures x.id != id {
        var j :| 0 <= j < |cs| && cs[j] == x;
        assert Ids(cs)[j] in Elements(Ids(cs));
      }
      WithoutAbsent(cs, id);
    }
  }

  lemma WithoutOldest(cs: seq<Checkpoint>)
    requires cs != [] && Distinct(Ids(cs))
    ensures WithoutId(cs, cs[0].id) == cs[1..]
  {
    forall x | x in cs[1..] ensures x.id != cs[0].id {
      var j :| 0 <= j < |cs[1..]| && cs[1..][j] == x;
      assert Ids(cs)[j + 1] != Ids(cs)[0];
    }
    WithoutAbsent(cs[1..], cs[0].id);
  }

  /** Saving under a fresh id appends to the list and drops the oldest beyond the cap. */
  lemma SaveRefines(s: Store, cs: seq<Checkpoint>, cp: Checkpoint, max: Option<nat>)
    requires Represents(s, cs) && !s.byId.Has(cp.id)
    ensures Represents(Saved(s, cp, max), SavedList(cs, cp, max))
  {
    var ids := if cp.sessionId in s.bySession then s.bySession[cp.sessionId] else [];
    var t := Store(s.byId.Set(cp.id, cp), s.bySession[cp.sessionId := ids + [cp.id]]);
    var all := cs + [cp];
    MapSaves(s.byId, cs, cp);
    forall sid ensures IndexFits(t.bySession, all, sid) {
      assert IndexFits(s.bySession, cs, sid) && IndexFits(s.bySession, cs, cp.sessionId);
      IndexSaves(s.bySession, cs, cp, sid);
    }
    SaveEvicts(t, all, max);
  }

  lemma SaveEvicts(t: Store, all: seq<Checkpoint>, max: Option<nat>)
    requires Represents(t, all) && all != []
    ensures t.byId.keys[0] in t.byId.vals && t.byId.Size() == |all|
    ensures var oldest := t.byId.keys[0];
            Represents(Store(t.byId.Delete(oldest), Unindex(t.bySession, t.byId.vals[oldest].sessionId, oldest)), all[1..])
  {
    assert Ids(all)[0] == all[0].id && all[0].id in t.byId.vals;
    DeleteRefines(t, all, all[0].id);
    WithoutOldest(all);
  }

  // ---- Deleting a session ----

  lemma {:induction false} NoneOfSession(cs: seq<Checkpoint>, sid: string)
    requires OfSession(cs, sid) == []
    ensures WithoutSession(cs, sid) == cs
  {
    if cs != [] { NoneOfSession(cs[1..], sid); }
  }

  lemma {:induction false} WithoutOneOfSession(cs: seq<Checkpoint>, sid: string, id: string)
    requires forall x :: x in cs && x.id == id ==> x.sessionId == sid
    ensures WithoutSession(WithoutId(cs, id), sid) == WithoutSession(cs, sid)
  {
    if cs != [] {
      assert forall x :: x in cs[1..] ==> x in cs;
      WithoutOneOfSession(cs[1..], sid, id);
      var rest := WithoutId(cs[1..], id);
      assert ([cs[0]] + rest)[1..] == rest;
      if cs[0].id == id { assert cs[0] in cs; }
    }
  }

  lemma {:induction false} DropAllRefines(byId: Map<string, Checkpoint>, cs: seq<Checkpoint>, sid: string)
    requires MapFits(byId, cs)
    ensures var ids := Ids(OfSession(cs, sid));
            MapFits(DropAll(byId, ids), WithoutSession(cs, sid)) && CountHeld(byId, ids) == |ids|
    decreases |OfSession(cs, sid)|
  {
    var own := OfSession(cs, sid);
    if own == [] {
      NoneOfSession(cs, sid);
      assert Ids(own) == [];
    } else {
      var id := own[0].id;
      FirstOfSession(cs, sid);
      MapDeletes(byId, cs, id);
      OfSessionWithoutId(cs, sid, id);
      WithoutOldest(own);
      DropAllRefines(byId.Delete(id), WithoutId(cs, id), sid);
      WithoutOneOfSession(cs, sid, id);
      assert Ids(own)[1..] == Ids(own[1..]) && Ids(own)[0] == id;
    }
  }

  lemma FirstOfSession(cs: seq<Checkpoint>, sid: string)
    requires OfSession(cs, sid) != [] && Distinct(Ids(cs))
    ensures var id := OfSession(cs, sid)[0].id;
            id in Elements(Ids(cs)) && Distinct(Ids(OfSession(cs, sid))) &&
            forall x :: x in cs && x.id == id ==> x.sessionId == sid
  {
    var own := OfSession(cs, sid);
    OfSessionMembers(cs, sid);
    hide OfSession;
    assert own[0] in own;
    var k :| 0 <= k < |cs| && cs[k] == own[0];
    assert Ids(cs)[k] == own[0].id;
    forall x | x in cs && x.id == own[0].id ensures x.sessionId == sid {
      var j :| 0 <= j < |cs| && cs[j] == x;
      assert Ids(cs)[j] == Ids(cs)[k];
    }
  }

  lemma {:induction false} OtherSessions(cs: seq<Checkpoint>, gone: string, sid: string)
    ensures OfSession(WithoutSession(cs, gone), sid) == if sid == gone then [] else OfSession(cs, sid)
  {
    if cs != [] {
      OtherSessions(cs[1..], gone, sid);
      var rest := WithoutSession(cs[1..], gone);
      assert ([cs[0]] + rest)[1..] == rest;
    }
  }

  /** Deleting a session deletes exactly its checkpoints and says how many there were. */
  lemma DeleteSessionRefines(s: Store, cs: seq<Checkpoint>, sid: string)
    requires Represents(s, cs)
    ensures Represents(DeletedSession(s, sid).0, WithoutSession(cs, sid))
    ensures DeletedSession(s, sid).1 == |OfSession(cs, sid)|
  {
    assert IndexFits(s.bySession, cs, sid);
    if sid in s.bySession {
      DropAllRefines(s.byId, cs, sid);
      forall other ensures IndexFits(s.bySession - {sid}, WithoutSession(cs, sid), other) {
        assert IndexFits(s.bySession, cs, other);
        OtherSessions(cs, sid, other);
      }
    } else {
      NoneOfSession(cs, sid);
    }
  }

  // ---- Reading ----

  lemma {:induction false} LookupFinds(byId: Map<string, Checkpoint>, cs: seq<Checkpoint>)
    requires forall x :: x in cs ==> x.id in byId.vals && byId.vals[x.id] == x
    ensures Lookup(byId, Ids(cs)) == cs
  {
    if cs != [] {
      assert cs[0] in cs;
      assert forall x :: x in cs[1..] ==> x in cs;
      LookupFinds(byId, cs[1..]);
      assert Ids(cs)[1..] == Ids(cs[1..]);
    }
  }

  /** What the index finds for a session. */
  function Indexed(s: Store, sid: string): seq<Checkpoint> {
    Lookup(s.byId, if sid in s.bySession then s.bySession[sid] else [])
  }

  /** The last checkpoint, unless its id is the empty text. */
  function LastNamed(cs: seq<Checkpoint>): Option<Checkpoint> {
    if cs == [] || cs[|cs| - 1].id == "" then None else Some(cs[|cs| - 1])
  }

  /** Is `r` the checkpoint of the list with this id, or nothing if there is none? */
  predicate Finds(cs: seq<Checkpoint>, id: string, r: Option<Checkpoint>) {
    match r
    case Some(cp) => cp in cs && cp.id == id
    case None => forall cp :: cp in cs ==> cp.id != id
  }

  lemma HeldIds(s: Store, cs: seq<Checkpoint>, id: string)
    requires Represents(s, cs)
    ensures Finds(cs, id, if s.byId.Has(id) then Some(s.byId.vals[id]) else None)
  {
    if s.byId.Has(id) {
      assert id in Elements(Ids(cs));
      var i :| 0 <= i < |cs| && Ids(cs)[i] == id;
    }
  }

  /** The index finds for every session exactly what a scan of the whole store finds, in save order. */
  lemma IndexIsFullScan(s: Store, cs: seq<Checkpoint>, sid: string)
    requires Represents(s, cs)
    ensures Indexed(s, sid) == OfSession(cs, sid)
    ensures Lookup(s.byId, s.byId.keys) == cs
  {
    assert IndexFits(s.bySession, cs, sid);
    forall x | x in cs ensures x.id in s.byId.vals && s.byId.vals[x.id] == x {
      var i :| 0 <= i < |cs| && cs[i] == x;
    }
    OfSessionMembers(cs, sid);
    LookupFinds(s.byId, OfSession(cs, sid));
    LookupFinds(s.byId, cs);
  }

  // ---- Runs ----

  datatype Op = Save(cp: Checkpoint) | Delete(id: string) | DeleteSession(sid: string)

  function Step(s: Store, op: Op, max: Option<nat>): Store {
    match op
    case Save(cp) => Saved(s, cp, max)
    case Delete(id) => Deleted(s, id).0
    case DeleteSession(sid) => DeletedSession(s, sid).0
  }

  function ListStep(cs: seq<Checkpoint>, op: Op, max: Option<nat>): seq<Checkpoint> {
    match op
    case Save(cp) => SavedList(cs, cp, max)
    case Delete(id) => WithoutId(cs, id)
    case DeleteSession(sid) => WithoutSession(cs, sid)
  }

  /** All saves that were not deleted since, evicted or not. */
  function Undeleted(ops: seq<Op>): seq<Checkpoint> {
    if ops == [] then [] else ListStep(Undeleted(ops[..|ops| - 1]), ops[|ops| - 1], None)
  }

  function After(ops: seq<Op>, max: Option<nat>): Store {
    if ops == [] then Store(EmptyMap(), map[]) else Step(After(ops[..|ops| - 1], max), ops[|ops| - 1], max)
  }

  function Held(ops: seq<Op>, max: Option<nat>): seq<Checkpoint> {
    if ops == [] then [] else ListStep(Held(ops[..|ops| - 1], max), ops[|ops| - 1], max)
  }

  /** Every save uses an id that is not in the store at that moment. */
  predicate FreshIds(ops: seq<Op>, max: Option<nat>) {
    ops == [] ||
    (var before, op := ops[..|ops| - 1], ops[|ops| - 1];
     FreshIds(before, max) && (op.Save? ==> !After(before, max).byId.Has(op.cp.id)))
  }

  predicate IsSuffix(cs: seq<Checkpoint>, all: seq<Checkpoint>) {
    |cs| <= |all| && cs == all[|all| - |cs|..]
  }

  lemma {:induction false} WithoutIdConcat(a: seq<Checkpoint>, b: seq<Checkpoint>, id: string)
    ensures WithoutId(a + b, id) == WithoutId(a, id) + WithoutId(b, id)
  {
    if a == [] {
      assert a + b == b;
    } else {
      WithoutIdConcat(a[1..], b, id);
      assert (a + b)[0] == a[0] && (a + b)[1..] == a[1..] + b;
      Sequences.Regroup([a[0]], WithoutId(a[1..], id), WithoutId(b, id));
    }
  }

  lemma {:induction false} WithoutSessionConcat(a: seq<Checkpoint>, b: seq<Checkpoint>, sid: string)
    ensures WithoutSession(a + b, sid) == WithoutSession(a, sid) + WithoutSession(b, sid)
  {
    if a == [] {
      assert a + b == b;
    } else {
      WithoutSessionConcat(a[1..], b, sid);
      assert (a + b)[0] == a[0] && (a + b)[1..] == a[1..] + b;
      Sequences.Regroup([a[0]], WithoutSession(a[1..], sid), WithoutSession(b, sid));
    }
  }

  lemma SuffixStep(cs: seq<Checkpoint>, all: seq<Checkpoint>, op: Op, max: Option<nat>)
    requires IsSuffix(cs, all)
    ensures IsSuffix(ListStep(cs, op, max), ListStep(all, op, None))
  {
    var gone := all[..|all| - |cs|];
    assert all == gone + cs;
    match op
    case Save(cp) => assert all + [cp] == gone + (cs + [cp]);
    case Delete(id) => WithoutIdConcat(gone, cs, id);
    case DeleteSession(sid) => WithoutSessionConcat(gone, cs, sid);
  }

  lemma {:induction false} WithoutShorter(cs: seq<Checkpoint>, x: string)
    ensures |WithoutId(cs, x)| <= |cs| && |WithoutSession(cs, x)| <= |cs|
  {
    if cs != [] { WithoutShorter(cs[1..], x); }
  }

  /**
   After any run of saves with fresh ids, deletes and session deletes: the two maps stand for a list
   that is a suffix, in save order, of the undeleted saves, and never exceeds the cap.
   */
  lemma {:induction false} RunRefines(ops: seq<Op>, max: Option<nat>)
    requires FreshIds(ops, max)
    ensures Represents(After(ops, max), Held(ops, max))
    ensures IsSuffix(Held(ops, max), Undeleted(ops))
    ensures max.Some? ==> |Held(ops, max)| <= max.value
    ensures max.None? ==> Held(ops, max) == Undeleted(ops)
  {
    HeldFits(ops, max);
    hide Represents, ListStep, Step, Undeleted;
    if ops == [] {
      EmptyRepresents();
    } else {
      var before, op := ops[..|ops| - 1], ops[|ops| - 1];
      RunRefines(before, max);
      StepRefines(After(before, max), Held(before, max), op, max);
    }
  }

  /** Every operation does to the maps what `ListStep` does to the list. */
  lemma StepRefines(s: Store, cs: seq<Checkpoint>, op: Op, max: Option<nat>)
    requires Represents(s, cs) && (op.Save? ==> !s.byId.Has(op.cp.id))
    ensures Represents(Step(s, op, max), ListStep(cs, op, max))
  {
    hide Represents, WithoutId, WithoutSession, Saved, Deleted, DeletedSession, SavedList;
    match op
    case Save(cp) => SaveRefines(s, cs, cp, max);
    case Delete(id) => DeleteRefines(s, cs, id);
    case DeleteSession(sid) => DeleteSessionRefines(s, cs, sid);
  }

  lemma {:induction false} HeldFits(ops: seq<Op>, max: Option<nat>)
    ensures IsSuffix(Held(ops, max), Undeleted(ops))
    ensures max.Some? ==> |Held(ops, max)| <= max.value
    ensures max.None? ==> Held(ops, max) == Undeleted(ops)
  {
    if ops != [] {
      var before, op := ops[..|ops| - 1], ops[|ops| - 1];
      HeldFits(before, max);
      SuffixStep(Held(before, max), Undeleted(before), op, max);
      if op.Delete? { WithoutShorter(Held(before, max), op.id); }
      if op.DeleteSession? { WithoutShorter(Held(before, max), op.sid); }
    }
  }

  lemma EmptyRepresents()
    ensures Represents(Store(EmptyMap(), map[]), [])
  {
    assert Ids([]) == [];
  }

  /** Does the cap keep exactly the newest undeleted saves? */
  predicate IsNewest(held: seq<Checkpoint>, undeleted: seq<Checkpoint>, max: nat) {
    IsSuffix(held, undeleted) && |held| == if |undeleted| < max then |undeleted| else max
  }

  /** Are the newest undeleted saves held after every operation of the run? */
  predicate NewestThroughout(ops: seq<Op>, max: nat) {
    IsNewest(Held(ops, Some(max)), Undeleted(ops), max) && (ops != [] ==> NewestThroughout(ops[..|ops| - 1], max))
  }

  /** The undeleted saves that are no longer held. */
  function Evicted(held: seq<Checkpoint>, undeleted: seq<Checkpoint>): seq<Checkpoint> {
    if |held| <= |undeleted| then undeleted[..|undeleted| - |held|] else []
  }

  predicate Hits(op: Op, cp: Checkpoint) {
    match op
    case Save(_) => false
    case Delete(id) => cp.id == id
    case DeleteSession(sid) => cp.sessionId == sid
  }

  /** A delete that hits nothing that is held, or everything that was evicted. */
  predicate SparesEvicted(op: Op, held: seq<Checkpoint>, evicted: seq<Checkpoint>) {
    op.Save? || (forall cp :: cp in held ==> !Hits(op, cp)) || (forall cp :: cp in evicted ==> Hits(op, cp))
  }

  /** Is every operation of the run a save, or such a delete of what is there before it? */
  predicate DeletesSpareEvicted(ops: seq<Op>, max: nat) {
    ops != [] ==>
      var before := ops[..|ops| - 1];
      var held := Held(before, Some(max));
      DeletesSpareEvicted(before, max) && SparesEvicted(ops[|ops| - 1], held, Evicted(held, Undeleted(before)))
  }

  lemma DeleteUnfold(cs: seq<Checkpoint>, op: Op)
    requires !op.Save? && cs != []
    ensures ListStep(cs, op, None) == (if Hits(op, cs[0]) then [] else [cs[0]]) + ListStep(cs[1..], op, None)
  {
  }

  /** A delete changes a list when it hits one of its checkpoints, and empties it when it hits all. */
  lemma {:induction false} DeleteHits(cs: seq<Checkpoint>, op: Op)
    requires !op.Save?
    ensures ListStep(cs, op, None) == [] <==> forall cp :: cp in cs ==> Hits(op, cp)
    ensures (forall cp :: cp in cs ==> !Hits(op, cp)) ==> ListStep(cs, op, None) == cs
    ensures (exists cp :: cp in cs && Hits(op, cp)) ==> |ListStep(cs, op, None)| < |cs|
    ensures |ListStep(cs, op, None)| <= |cs|
  {
    if cs != [] {
      hide ListStep, Hits;
      DeleteUnfold(cs, op);
      DeleteHits(cs[1..], op);
      assert cs == [cs[0]] + cs[1..] && cs[0] in cs;
      assert forall cp :: cp in cs <==> cp == cs[0] || cp in cs[1..];
    } else {
      NothingToDelete(op);
    }
  }

  lemma NothingToDelete(op: Op)
    requires !op.Save?
    ensures ListStep([], op, None) == []
  {
  }

  lemma NewestStep(held: seq<Checkpoint>, undeleted: seq<Checkpoint>, op: Op, max: nat)
    requires IsNewest(held, undeleted, max)
    ensures IsNewest(ListStep(held, op, Some(max)), ListStep(undeleted, op, None), max) <==>
            SparesEvicted(op, held, Evicted(held, undeleted))
  {
    SuffixStep(held, undeleted, op, Some(max));
    if !op.Save? {
      var evicted := Evicted(held, undeleted);
      assert undeleted == evicted + held;
      DeleteSplits(evicted, held, op, Some(max));
      hide ListStep, Hits;
      DeleteHits(held, op);
      DeleteHits(evicted, op);
    }
  }

  lemma DeleteSplits(a: seq<Checkpoint>, b: seq<Checkpoint>, op: Op, max: Option<nat>)
    requires !op.Save?
    ensures ListStep(a + b, op, None) == ListStep(a, op, None) + ListStep(b, op, None)
    ensures ListStep(b, op, max) == ListStep(b, op, None)
  {
    match op
    case Delete(id) => WithoutIdConcat(a, b, id);
    case DeleteSession(sid) => WithoutSessionConcat(a, b, sid);
  }

  /**
   The store holds the newest undeleted saves throughout a run exactly when every delete of the run hits
   nothing that is held or everything that was evicted; runs without deletes are a special case.
   */
  lemma {:induction false} NewestExactly(ops: seq<Op>, max: nat)
    ensures NewestThroughout(ops, max) <==> DeletesSpareEvicted(ops, max)
  {
    if ops != [] {
      hide IsNewest, SparesEvicted, ListStep, Evicted;
      var before, op := ops[..|ops| - 1], ops[|ops| - 1];
      NewestExactly(before, max);
      if NewestThroughout(before, max) {
        NewestStep(Held(before, Some(max)), Undeleted(before), op, max);
      }
    }
  }

  /** An eviction is final: deleting the newer checkpoint does not bring the older one back. */
  lemma EvictionIsFinal(a: Checkpoint, b: Checkpoint)
    requires a.id != b.id
    ensures var ops := [Save(a), Save(b), Delete(b.id)];
            Held(ops, Some(1)) == [] && Undeleted(ops) == [a]
  {
    var o1: seq<Op>, o2, o3 := [Save(a)], [Save(a), Save(b)], [Save(a), Save(b), Delete(b.id)];
    assert o3[..2] == o2 && o2[..1] == o1 && o1[..0] == [];
    assert [] + [a] == [a] && [a] + [b] == [a, b];
    assert SavedList([], a, None) == [a] && SavedList([a], b, None) == [a, b];
    assert Undeleted(o1[..0]) == [] && Undeleted(o1) == ListStep(Undeleted(o1[..0]), Save(a), None);
    assert Held(o1, Some(1)) == [a] && Undeleted(o1) == [a];
    assert [a, b][1..] == [b] && [b][1..] == [];
    assert Held(o2, Some(1)) == [b] && Undeleted(o2) == [a, b];
    assert WithoutId([b][1..], b.id) == [] && WithoutId([b], b.id) == [];
    assert [a, b][0].id != b.id && WithoutId([a, b], b.id) == [a] + WithoutId([a, b][1..], b.id);
  }

  /** What every represented index satisfies: no id twice, and each id listed under its own session. */
  ghost predicate IndexSound(s: Store) {
    forall sid :: sid in s.bySession ==>
      && Distinct(s.bySession[sid])
      && forall id :: id in s.bySession[sid] ==> id in s.byId.vals && s.byId.vals[id].sessionId == sid
  }

  lemma RepresentedIsSound(s: Store, cs: seq<Checkpoint>)
    ensures Represents(s, cs) ==> IndexSound(s)
  {
    if Represents(s, cs) {
      forall sid | sid in s.bySession
        ensures Distinct(s.bySession[sid])
        ensures forall id :: id in s.bySession[sid] ==> id in s.byId.vals && s.byId.vals[id].sessionId == sid
      {
        assert IndexFits(s.bySession, cs, sid);
        OfSessionMembers(cs, sid);
        var own := OfSession(cs, sid);
        forall id | id in s.bySession[sid] ensures id in s.byId.vals && s.byId.vals[id].sessionId == sid {
          var j :| 0 <= j < |own| && Ids(own)[j] == id;
          assert own[j] in own;
          var i :| 0 <= i < |cs| && cs[i] == own[j];
        }
      }
    }
  }

  /** Saving under an id that is still held lists it twice, or under a session it no longer has. */
  lemma StaleSaveIsUnsound(s: Store, cs: seq<Checkpoint>, cp: Checkpoint)
    requires Represents(s, cs) && s.byId.Has(cp.id)
    ensures !IndexSound(Saved(s, cp, None))
  {
    var t := Saved(s, cp, None);
    assert cp.id in Elements(Ids(cs));
    var k :| 0 <= k < |cs| && Ids(cs)[k] == cp.id;
    var sid := cs[k].sessionId;
    OwnId(cs, k);
    assert IndexFits(s.bySession, cs, sid);
    var ids := s.bySession[sid];
    var j :| 0 <= j < |ids| && ids[j] == cp.id;
    if sid == cp.sessionId {
      var listed := t.bySession[sid];
      assert listed == ids + [cp.id];
      assert listed[j] == listed[|ids|] && j < |ids|;
    } else {
      assert cp.id in t.bySession[sid] && t.byId.vals[cp.id].sessionId != sid;
    }
  }

  lemma OwnId(cs: seq<Checkpoint>, k: nat)
    requires k < |cs|
    ensures cs[k].id in Ids(OfSession(cs, cs[k].sessionId)) && OfSession(cs, cs[k].sessionId) != []
  {
    OfSessionMembers(cs, cs[k].sessionId);
    var own := OfSession(cs, cs[k].sessionId);
    assert cs[k] in own;
    var j :| 0 <= j < |own| && own[j] == cs[k];
    assert Ids(own)[j] == cs[k].id;
  }

  /** The index stays in step with the map exactly when the saved id is fresh. */
  lemma SaveNeedsFreshId(s: Store, cs: seq<Checkpoint>, cp: Checkpoint, max: Option<nat>)
    requires Represents(s, cs) && (max.Some? ==> |cs| <= max.value)
    ensures !s.byId.Has(cp.id) <==> exists after :: Represents(Saved(s, cp, max), after)
  {
    if !s.byId.Has(cp.id) {
      SaveRefines(s, cs, cp, max);
    } else {
      assert s.byId.Size() == |cs|;
      assert Saved(s, cp, max) == Saved(s, cp, None);
      StaleSaveIsUnsound(s, cs, cp);
      forall after ensures !Represents(Saved(s, cp, max), after) {
        RepresentedIsSound(Saved(s, cp, max), after);
      }
    }
  }

  // ---- Restore and diff ----

  function CreateCheckpoint(id: string, sid: string, messages: seq<string>, iteration: int): Checkpoint {
    Checkpoint(id, sid, iteration, messages, Some(|messages|))
  }

  /** The messages a restore yields from the checkpoint and the live session. */
  function Restored(cp: Checkpoint, live: seq<string>): seq<string> {
    var cursor := if cp.messageCursor.Some? then cp.messageCursor.value else |cp.messages|;
    if |live| >= cursor then live[..cursor] else cp.messages
  }

  /** The cursor is the number of messages, or missing as in older checkpoints. */
  predicate CursorFits(cp: Checkpoint) {
    cp.messageCursor.Some? ==> cp.messageCursor.value == |cp.messages|
  }

  /**
   A restore yields the messages at save time just when the live history was cut short or only grew, and otherwise
   as many live messages; a new checkpoint is of the session's messages and restores in this way.
   */
  lemma RestoreExact(cp: Checkpoint, live: seq<string>, id: string, sid: string, iteration: int)
    requires CursorFits(cp)
    ensures Restored(cp, live) == cp.messages <==> |live| < |cp.messages| || cp.messages <= live
    ensures |Restored(cp, live)| == |cp.messages| && (|live| >= |cp.messages| ==> Restored(cp, live) <= live)
    ensures var made := CreateCheckpoint(id, sid, live, iteration);
            CursorFits(made) && made.messages == live && made.sessionId == sid && made.iteration == iteration && made.id == id
  {
  }

  /** JavaScript's `slice(n)` is empty beyond the end. */
  function NewMessages(earlier: Checkpoint, later: Checkpoint): seq<string> {
    if |earlier.messages| <= |later.messages| then later.messages[|earlier.messages|..] else []
  }

  /**
   The diff completes the earlier messages to the later ones exactly when history only grew; it is always the end of
   the later messages, with as many as there are more of them.
   */
  lemma DiffCompletes(earlier: Checkpoint, later: Checkpoint)
    ensures earlier.messages + NewMessages(earlier, later) == later.messages <==> earlier.messages <= later.messages
    ensures var n := |later.messages| - |earlier.messages|;
            var r := NewMessages(earlier, later);
            |r| == (if n > 0 then n else 0) && r == later.messages[|later.messages| - |r|..]
  {
    if earlier.messages + NewMessages(earlier, later) == later.messages {
      assert later.messages[..|earlier.messages|] == earlier.messages;
    }
  }

  // ---- The store itself ----

  class InMemoryCheckpointStore {
    var byId: Map<string, Checkpoint>
    var bySession: Index
    const maxCheckpoints: Option<nat>

    ghost function St(): Store
      reads this
    {
      Store(byId, bySession)
    }

    constructor (maxCheckpoints: Option<nat>)
      ensures St() == Store(EmptyMap(), map[]) && Represents(St(), [])
      ensures this.maxCheckpoints == maxCheckpoints
    {
      byId, bySession := EmptyMap(), map[];
      this.maxCheckpoints := maxCheckpoints;
      new;
      EmptyRepresents();
    }

    method SpliceOut(sid: string, id: string)
      modifies this`bySession
      ensures bySession == Unindex(old(bySession), sid, id)
    {
      if sid in bySession {
        var ids := RemoveFirst(bySession[sid], id);
        if ids == [] { bySession := bySession - {sid}; } else { bySession := bySession[sid := ids]; }
      }
    }

    /** For a fresh id the represented list grows by the checkpoint and loses its oldest beyond the cap. */
    method Save(cp: Checkpoint)
      modifies this
      ensures St() == Saved(old(St()), cp, maxCheckpoints)
      ensures forall cs :: old(Represents(St(), cs) && !byId.Has(cp.id)) ==>
                Represents(St(), SavedList(cs, cp, maxCheckpoints))
    {
      ghost var s0 := St();
      var ids: seq<string> := [];
      if cp.sessionId in bySession { ids := bySession[cp.sessionId]; }
      byId := byId.Set(cp.id, cp);
      bySession := bySession[cp.sessionId := ids + [cp.id]];
      if maxCheckpoints.Some? && byId.Size() > maxCheckpoints.value {
        var oldest := byId.keys[0];
        if byId.Has(oldest) {
          var evicted := byId.vals[oldest];
          byId := byId.Delete(oldest);
          SpliceOut(evicted.sessionId, oldest);
        }
      }
      forall cs | Represents(s0, cs) && !s0.byId.Has(cp.id)
        ensures Represents(St(), SavedList(cs, cp, maxCheckpoints))
      {
        SaveRefines(s0, cs, cp, maxCheckpoints);
      }
    }

    /** The checkpoint of the represented list with this id, or nothing when the list has none. */
    method Get(id: string) returns (r: Option<Checkpoint>)
      ensures r.Some? <==> byId.Has(id)
      ensures r.Some? ==> byId.vals[id] == r.value
      ensures forall cs :: Represents(St(), cs) ==> Finds(cs, id, r)
    {
      r := if byId.Has(id) then Some(byId.vals[id]) else None;
      forall cs | Represents(St(), cs) ensures Finds(cs, id, r) {
        HeldIds(St(), cs, id);
      }
    }

    /** The stored checkpoints behind a list of ids. */
    method Collect(ids: seq<string>) returns (found: seq<Checkpoint>)
      ensures found == Lookup(byId, ids)
    {
      found := [];
      var i := 0;
      assert ids[0..] == ids;
      while i < |ids|
        invariant 0 <= i <= |ids| && found + Lookup(byId, ids[i..]) == Lookup(byId, ids)
      {
        assert ids[i..][1..] == ids[i + 1..];
        if ids[i] in byId.vals {
          ghost var rest := Lookup(byId, ids[i + 1..]);
          assert found + ([byId.vals[ids[i]]] + rest) == (found + [byId.vals[ids[i]]]) + rest;
          found := found + [byId.vals[ids[i]]];
        }
        i := i + 1;
      }
      assert found + [] == found;
    }

    /** The session's checkpoints in a stable order by iteration. */
    method ListBySession(sid: string) returns (r: seq<Checkpoint>)
      ensures r == StableSort(Indexed(St(), sid))
      ensures forall cs :: Represents(St(), cs) ==> r == StableSort(OfSession(cs, sid))
    {
      forall cs | Represents(St(), cs) ensures Indexed(St(), sid) == OfSession(cs, sid) {
        IndexIsFullScan(St(), cs, sid);
      }
      if sid !in bySession || bySession[sid] == [] { return []; }
      var found := Collect(bySession[sid]);
      r := StableSort(found);
    }

    /** The checkpoint that `ListBySession` lists last, unless its id is the empty text. */
    method GetLatest(sid: string) returns (r: Option<Checkpoint>)
      ensures r == LastNamed(StableSort(Indexed(St(), sid)))
      ensures forall cs :: Represents(St(), cs) ==> r == LastNamed(StableSort(OfSession(cs, sid)))
    {
      forall cs | Represents(St(), cs) ensures Indexed(St(), sid) == OfSession(cs, sid) {
        IndexIsFullScan(St(), cs, sid);
      }
      LatestIsLast(Indexed(St(), sid));
      if sid !in bySession || bySession[sid] == [] { return None; }
      var found := Collect(bySession[sid]);
      var best := ScanLatest(found);
      if best.None? || best.value.id == "" { return None; }
      return best;
    }

    /** The scan for the highest iteration; a later one wins a tie. */
    method ScanLatest(found: seq<Checkpoint>) returns (best: Option<Checkpoint>)
      ensures best == Latest(found) && (best.Some? ==> best.value in found)
    {
      best := None;
      var i := 0;
      while i < |found|
        invariant 0 <= i <= |found| && best == Latest(found[..i])
        invariant best.Some? ==> best.value in found
      {
        assert found[..i + 1][..i] == found[..i];
        if best.None? || found[i].iteration >= best.value.iteration { best := Some(found[i]); }
        i := i + 1;
      }
      assert found[..|found|] == found;
    }

    method Delete(id: string) returns (removed: bool)
      modifies this
      ensures (St(), removed) == Deleted(old(St()), id)
    {
      if !byId.Has(id) { return false; }
      var cp := byId.vals[id];
      byId := byId.Delete(id);
      SpliceOut(cp.sessionId, id);
      return true;
    }

    method DeleteBySession(sid: string) returns (count: nat)
      modifies this
      ensures (St(), count) == DeletedSession(old(St()), sid)
    {
      if sid !in bySession { return 0; }
      var ids := bySession[sid];
      count := 0;
      var i := 0;
      assert ids[0..] == ids;
      while i < |ids|
        invariant 0 <= i <= |ids| && bySession == old(bySession)
        invariant DropAll(byId, ids[i..]) == DropAll(old(byId), ids)
        invariant count + CountHeld(byId, ids[i..]) == CountHeld(old(byId), ids)
      {
        assert ids[i..][1..] == ids[i + 1..];
        if byId.Has(ids[i]) { count := count + 1; }
        byId := byId.Delete(ids[i]);
        i := i + 1;
      }
      bySession := bySession - {sid};
    }
  }
}
