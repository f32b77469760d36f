/** Stored snapshots and their first-parent history. */
module SnapshotGraph {
  import opened Wrappers

  type Id = nat

  type TreeId = nat

  /** `meta` stands for the timestamp, author, message and provenance. */
  datatype Snapshot = Snapshot(root: TreeId, parents: seq<Id>, meta: nat)

  type Store = map<Id, Snapshot>

  /** When each snapshot was first put. */
  type Births = map<Id, nat>

  ghost predicate ParentsEarlier(store: Store, born: Births, id: Id, parents: seq<Id>)
    requires id in born
  {
    parents == [] || (parents[0] in store && parents[0] in born && born[parents[0]] < born[id]
                      && ParentsEarlier(store, born, id, parents[1..]))
  }

  /** Every parent is stored, and was stored before its child. */
  ghost predicate Grounded(store: Store, born: Births) {
    forall id <- store :: id in born && ParentsEarlier(store, born, id, store[id].parents)
  }

  /** Following `n` first parents from `id`. */
  function Back(store: Store, id: Id, n: nat): (end: Option<Id>)
    decreases n
  {
    if n == 0 then Some(id)
    else if id !in store || store[id].parents == [] then None
    else Back(store, store[id].parents[0], n - 1)
  }

  ghost predicate Ancestor(store: Store, old_: Id, new_: Id) {
    exists n: nat :: Back(store, new_, n) == Some(old_)
  }

  lemma {:induction false} FirstParentEarlier(store: Store, born: Births, id: Id)
    requires Grounded(store, born) && id in store && store[id].parents != []
    ensures store[id].parents[0] in store && id in born && store[id].parents[0] in born
    ensures born[store[id].parents[0]] < born[id]
  {
    assert ParentsEarlier(store, born, id, store[id].parents);
  }

  /** History never returns to where it started. */
  lemma {:induction false} BackIsEarlier(store: Store, born: Births, id: Id, n: nat)
    requires Grounded(store, born) && id in store && n > 0 && Back(store, id, n).Some?
    ensures id in born && Back(store, id, n).value in store && Back(store, id, n).value in born
    ensures born[Back(store, id, n).value] < born[id]
    decreases n
  {
    FirstParentEarlier(store, born, id);
    if n > 1 {
      BackIsEarlier(store, born, store[id].parents[0], n - 1);
    }
  }

  /** The first-parent history from newest to oldest. */
  ghost function History(store: Store, born: Births, id: Id): (ids: seq<Id>)
    requires Grounded(store, born) && id in store
    decreases born[id]
  {
    if store[id].parents == [] then [id]
    else
      FirstParentEarlier(store, born, id);
      [id] + History(store, born, store[id].parents[0])
  }

  /** The history lists exactly what following first parents reaches, in that order. */
  lemma {:induction false} HistoryIsBack(store: Store, born: Births, id: Id, n: nat)
    requires Grounded(store, born) && id in store
    ensures n < |History(store, born, id)| <==> Back(store, id, n).Some?
    ensures n < |History(store, born, id)| ==> Back(store, id, n) == Some(History(store, born, id)[n])
    decreases n
  {
    if n > 0 && store[id].parents != [] {
      FirstParentEarlier(store, born, id);
      HistoryIsBack(store, born, store[id].parents[0], n - 1);
    }
  }

  datatype TimelineError = SnapshotCycle(id: Id) | MissingSnapshot(id: Id)

  /** Following first parents from `start` meets `id` twice. */
  ghost predicate Revisits(store: Store, start: Id, id: Id) {
    exists m: nat, n: nat :: m < n && Back(store, start, m) == Some(id) && Back(store, start, n) == Some(id)
  }

  lemma {:induction false} BackOnce(store: Store, start: Id, n: nat, id: Id)
    requires Back(store, start, n) == Some(id) && id in store && store[id].parents != []
    ensures Back(store, start, n + 1) == Some(store[id].parents[0])
    decreases n
  {
    if n > 0 {
      BackOnce(store, store[start].parents[0], n - 1, id);
    }
  }

  lemma {:induction false} HistoryGrows(store: Store, born: Births, entries: seq<Id>, id: Id)
    requires Grounded(store, born) && id in store
    ensures store[id].parents == [] ==> entries + History(store, born, id) == entries + [id]
    ensures store[id].parents != [] ==> (store[id].parents[0] in store
      && entries + History(store, born, id) == (entries + [id]) + History(store, born, store[id].parents[0]))
  {
    if store[id].parents != [] {
      FirstParentEarlier(store, born, id);
    }
  }

  /** Every snapshot listed so far was put after the one at hand. */
  ghost predicate Younger(born: Births, seen: set<Id>, current: Id) {
    current in born && forall x <- seen :: x in born && born[current] < born[x]
  }

  lemma {:induction false} StillYounger(store: Store, born: Births, seen: set<Id>, current: Id)
    requires Grounded(store, born) && current in store && store[current].parents != [] && Younger(born, seen, current)
    ensures Younger(born, seen + {current}, store[current].parents[0])
  {
    FirstParentEarlier(store, born, current);
  }

  /**
   * Walks first parents, watching for a repeated snapshot. On a grounded store it lists the whole history; a cycle
   * is reported only where there is one.
   */
  method Timeline(store: Store, ghost born: Births, start: Id) returns (r: Result<seq<Id>, TimelineError>)
    ensures Grounded(store, born) && start in store ==> r == Ok(History(store, born, start))
    ensures r.Err? && r.error.MissingSnapshot? ==> r.error.id !in store
    ensures r.Err? && r.error.SnapshotCycle? ==> Revisits(store, start, r.error.id)
  {
    hide Grounded, History;
    ghost var sound := Grounded(store, born) && start in store;
    var current := start;
    var seen: set<Id> := {};
    var entries: seq<Id> := [];
    ghost var position: map<Id, nat> := map[];
    if sound {
      BornWhenStored(store, born, start);
    }
    while true
      invariant Back(store, start, |entries|) == Some(current) && seen == position.Keys
      invariant forall x <- position :: position[x] < |entries| && Back(store, start, position[x]) == Some(x)
      invariant sound ==> current in store && History(store, born, start) == entries + History(store, born, current)
      invariant sound ==> Younger(born, seen, current)
      decreases store.Keys - seen
    {
      if current in seen {
        return Err(SnapshotCycle(current));
      }
      if current !in store {
        return Err(MissingSnapshot(current));
      }
      if sound {
        HistoryGrows(store, born, entries, current);
      }
      position := position[current := |entries|];
      entries := entries + [current];
      if store[current].parents == [] {
        return Ok(entries);
      }
      BackOnce(store, start, |entries| - 1, current);
      if sound {
        StillYounger(store, born, seen, current);
      }
      seen := seen + {current};
      current := store[current].parents[0];
    }
  }

  lemma {:induction false} BornWhenStored(store: Store, born: Births, id: Id)
    requires Grounded(store, born) && id in store
    ensures id in born
  {
  }
}
