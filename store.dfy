/**
  The in-memory application store (`AppsProvider`): a list of records, newest
  first, that `addApp`, `updateApp` and `deleteApp` replace wholesale.
 */
module Store {
  import opened Wrappers
  import opened Records
  import opened Sequences

  /** `[{ id, ...app }, ...prev]` */
  function Prepended(apps: seq<Record>, id: int, d: Draft): seq<Record> {
    [WithId(id, d)] + apps
  }

  /** `prev.map(a => a.id === id ? { ...a, ...updated } : a)` */
  function Updated(apps: seq<Record>, id: int, p: Patch): seq<Record> {
    if apps == [] then []
    else [if apps[0].id == id then Merge(apps[0], p) else apps[0]] + Updated(apps[1..], id, p)
  }

  /** `prev.filter(a => a.id !== id)` */
  function Deleted(apps: seq<Record>, id: int): seq<Record> {
    Filter(apps, (a: Record) => a.id != id)
  }

  /** No record of `apps` carries `id`. */
  predicate Fresh(apps: seq<Record>, id: int) {
    forall i :: 0 <= i < |apps| ==> apps[i].id != id
  }

  lemma AddShape(apps: seq<Record>, id: int, d: Draft)
    ensures |Prepended(apps, id, d)| == |apps| + 1
    ensures Prepended(apps, id, d)[0] == WithId(id, d)
    ensures Prepended(apps, id, d)[1..] == apps
  {
  }

  /** Same length, same order; matching records take the patch, others are untouched. */
  lemma {:induction false} UpdatedAt(apps: seq<Record>, id: int, p: Patch)
    ensures |Updated(apps, id, p)| == |apps|
    ensures forall i :: 0 <= i < |apps| ==>
      Updated(apps, id, p)[i] == if apps[i].id == id then Merge(apps[i], p) else apps[i]
  {
    if apps != [] {
      UpdatedAt(apps[1..], id, p);
    }
  }

  /** Updating an id nobody has changes nothing. */
  lemma UpdateAbsent(apps: seq<Record>, id: int, p: Patch)
    requires Fresh(apps, id)
    ensures Updated(apps, id, p) == apps
  {
    UpdatedAt(apps, id, p);
  }

  /** After deleting, no record with the id remains; every other record
      remains as often as before, in its previous relative order. */
  lemma DeleteRemoves(apps: seq<Record>, id: int)
    ensures Fresh(Deleted(apps, id), id)
    ensures IsSubsequence(Deleted(apps, id), apps)
    ensures forall a: Record :: a.id != id ==> multiset(Deleted(apps, id))[a] == multiset(apps)[a]
    ensures forall a :: a in Deleted(apps, id) <==> a in apps && a.id != id
  {
    var keep := (a: Record) => a.id != id;
    FilterIsSubsequence(apps, keep);
    FilterMembers(apps, keep);
    forall a: Record | a.id != id
      ensures multiset(Deleted(apps, id))[a] == multiset(apps)[a]
    {
      FilterCount(apps, keep, a);
    }
    forall i | 0 <= i < |Deleted(apps, id)|
      ensures Deleted(apps, id)[i].id != id
    {
      assert Deleted(apps, id)[i] in Deleted(apps, id);
    }
  }

  /** Deleting an id nobody has is a no-op. */
  lemma DeleteAbsent(apps: seq<Record>, id: int)
    requires Fresh(apps, id)
    ensures Deleted(apps, id) == apps
  {
    FilterKeepsAll(apps, (a: Record) => a.id != id);
  }

  /** Adding with a fresh id and deleting that id restores the list. */
  lemma AddThenDelete(apps: seq<Record>, id: int, d: Draft)
    requires Fresh(apps, id)
    ensures Deleted(Prepended(apps, id, d), id) == apps
  {
    var added := Prepended(apps, id, d);
    assert added[1..] == apps;
    DeleteAbsent(apps, id);
  }

  /** Deleting after an update that leaves ids alone is deleting alone. */
  lemma {:induction false} DeleteAfterUpdate(apps: seq<Record>, id: int, p: Patch)
    requires p.id.None?
    ensures Deleted(Updated(apps, id, p), id) == Deleted(apps, id)
  {
    if apps != [] {
      DeleteAfterUpdate(apps[1..], id, p);
      var head := if apps[0].id == id then Merge(apps[0], p) else apps[0];
      assert Updated(apps, id, p)[0] == head;
      assert Updated(apps, id, p)[1..] == Updated(apps[1..], id, p);
    }
  }

  /** Updating with an empty object changes nothing. */
  lemma UpdateEmpty(apps: seq<Record>, id: int)
    ensures Updated(apps, id, EmptyPatch) == apps
  {
    UpdatedAt(apps, id, EmptyPatch);
    forall i | 0 <= i < |apps|
      ensures Updated(apps, id, EmptyPatch)[i] == apps[i]
    {
      MergeEmpty(apps[i]);
    }
  }

  /** A patch that keeps the id (or sets it to the same id) still finds the
      record on a second `updateApp(id, ...)`. */
  predicate KeepsId(p: Patch, id: int) {
    p.id.None? || p.id == Some(id)
  }

  /** Two successive updates of one id are one update with the combined fields. */
  lemma UpdateTwice(apps: seq<Record>, id: int, p: Patch, q: Patch)
    requires KeepsId(p, id)
    ensures Updated(Updated(apps, id, p), id, q) == Updated(apps, id, Combine(p, q))
  {
    var once := Updated(apps, id, p);
    UpdatedAt(apps, id, p);
    UpdatedAt(once, id, q);
    UpdatedAt(apps, id, Combine(p, q));
    forall i | 0 <= i < |apps|
      ensures Updated(once, id, q)[i] == Updated(apps, id, Combine(p, q))[i]
    {
      if apps[i].id == id {
        MergeCombine(apps[i], p, q);
      }
    }
  }

  /** Repeating an update is harmless. */
  lemma UpdateIdempotent(apps: seq<Record>, id: int, p: Patch)
    requires KeepsId(p, id)
    ensures Updated(Updated(apps, id, p), id, p) == Updated(apps, id, p)
  {
    var once := Updated(apps, id, p);
    UpdatedAt(apps, id, p);
    UpdatedAt(once, id, p);
    forall i | 0 <= i < |apps|
      ensures Updated(once, id, p)[i] == once[i]
    {
      if apps[i].id == id {
        MergeIdempotent(apps[i], p);
      }
    }
  }

  /** No two records share an id. */
  predicate UniqueIds(apps: seq<Record>) {
    forall i, j :: 0 <= i < j < |apps| ==> apps[i].id != apps[j].id
  }

  lemma UniqueTail(apps: seq<Record>)
    requires apps != [] && UniqueIds(apps)
    ensures UniqueIds(apps[1..]) && Fresh(apps[1..], apps[0].id)
  {
    assert forall i :: 0 <= i < |apps| - 1 ==> apps[1..][i] == apps[i + 1];
  }

  /** Adding with an id nobody has keeps the ids unique. */
  lemma AddKeepsUnique(apps: seq<Record>, id: int, d: Draft)
    requires UniqueIds(apps) && Fresh(apps, id)
    ensures UniqueIds(Prepended(apps, id, d))
  {
    var added := Prepended(apps, id, d);
    assert forall i :: 1 <= i < |added| ==> added[i] == apps[i - 1];
  }

  /** Keeping some of the records keeps their ids unique. */
  lemma {:induction false} FilterKeepsUnique(apps: seq<Record>, p: Record -> bool)
    requires UniqueIds(apps)
    ensures UniqueIds(Filter(apps, p))
  {
    if apps != [] {
      UniqueTail(apps);
      FilterKeepsUnique(apps[1..], p);
      var rest := Filter(apps[1..], p);
      FilterMembers(apps[1..], p);
      if p(apps[0]) {
        var r := [apps[0]] + rest;
        forall i, j | 0 <= i < j < |r|
          ensures r[i].id != r[j].id
        {
          assert r[j] == rest[j - 1] && rest[j - 1] in apps[1..];
          if i == 0 {
            var k :| 0 <= k < |apps[1..]| && apps[1..][k] == rest[j - 1];
          } else {
            assert r[i] == rest[i - 1];
          }
        }
      }
    }
  }

  /** Deleting keeps the ids unique. */
  lemma DeleteKeepsUnique(apps: seq<Record>, id: int)
    requires UniqueIds(apps)
    ensures UniqueIds(Deleted(apps, id))
  {
    FilterKeepsUnique(apps, (a: Record) => a.id != id);
  }

  /** With unique ids, deleting an id that is present removes exactly one record. */
  lemma {:induction false} DeletePresent(apps: seq<Record>, id: int)
    requires UniqueIds(apps) && !Fresh(apps, id)
    ensures |Deleted(apps, id)| == |apps| - 1
  {
    UniqueTail(apps);
    if apps[0].id == id {
      DeleteAbsent(apps[1..], id);
    } else {
      DeletePresent(apps[1..], id);
    }
  }

  /** An update that leaves ids alone keeps them unique. */
  lemma UpdateKeepsUnique(apps: seq<Record>, id: int, p: Patch)
    requires UniqueIds(apps) && p.id.None?
    ensures UniqueIds(Updated(apps, id, p))
  {
    UpdatedAt(apps, id, p);
  }

  /** With unique ids, an update changes at most one record. */
  lemma UpdateChangesAtMostOne(apps: seq<Record>, id: int, p: Patch)
    requires UniqueIds(apps)
    ensures |Updated(apps, id, p)| == |apps|
    ensures forall i, j :: 0 <= i < j < |apps| ==>
      Updated(apps, id, p)[i] == apps[i] || Updated(apps, id, p)[j] == apps[j]
  {
    UpdatedAt(apps, id, p);
  }

  /**
    The store. `apps` is the state field that each operation replaces. Ids
    are meant to be unique (`UniqueIds`); the operations keep that when the
    added id is fresh and updates leave ids alone, but `addApp` does not
    check freshness, so it is not a class invariant. The
    `useEffect` that mirrors it to browser storage is not part of this model.
   */
  class AppsProvider {
    var apps: seq<Record>

    /** `useState([])`: the reduced provider starts empty. */
    constructor ()
      ensures apps == []
    {
      apps := [];
    }

    /** `useState(() => ...)`: the full provider starts from what storage held. */
    constructor Restored(saved: seq<Record>)
      ensures apps == saved
    {
      apps := saved;
    }

    /** `addApp(app)` / `addApplication(app)`, with the id `Date.now()` would give. */
    method AddApp(id: int, d: Draft)
      modifies this
      ensures apps == Prepended(old(apps), id, d)
      ensures |apps| == |old(apps)| + 1 && apps[0] == WithId(id, d) && apps[1..] == old(apps)
      ensures UniqueIds(old(apps)) && Fresh(old(apps), id) ==> UniqueIds(apps)
    {
      if UniqueIds(apps) && Fresh(apps, id) { AddKeepsUnique(apps, id, d); }
      apps := Prepended(apps, id, d);
    }

    /** `updateApp(id, updated)` */
    method UpdateApp(id: int, p: Patch)
      modifies this
      ensures apps == Updated(old(apps), id, p)
      ensures |apps| == |old(apps)|
      ensures forall i :: 0 <= i < |apps| ==>
        apps[i] == if old(apps)[i].id == id then Merge(old(apps)[i], p) else old(apps)[i]
      ensures UniqueIds(old(apps)) ==> forall i, j :: 0 <= i < j < |apps| ==>
        apps[i] == old(apps)[i] || apps[j] == old(apps)[j]
      ensures UniqueIds(old(apps)) && p.id.None? ==> UniqueIds(apps)
    {
      UpdatedAt(apps, id, p);
      if UniqueIds(apps) {
        UpdateChangesAtMostOne(apps, id, p);
        if p.id.None? { UpdateKeepsUnique(apps, id, p); }
      }
      apps := Updated(apps, id, p);
    }

    /** `deleteApp(id)` / `deleteApplication(id)` */
    method DeleteApp(id: int)
      modifies this
      ensures apps == Deleted(old(apps), id)
      ensures Fresh(apps, id) && IsSubsequence(apps, old(apps))
      ensures Fresh(old(apps), id) ==> apps == old(apps)
      ensures UniqueIds(old(apps)) ==> UniqueIds(apps)
      ensures UniqueIds(old(apps)) && !Fresh(old(apps), id) ==> |apps| == |old(apps)| - 1
    {
      DeleteRemoves(apps, id);
      if UniqueIds(apps) {
        DeleteKeepsUnique(apps, id);
        if !Fresh(apps, id) { DeletePresent(apps, id); }
      }
      if Fresh(apps, id) { DeleteAbsent(apps, id); }
      apps := Deleted(apps, id);
    }
  }
}
