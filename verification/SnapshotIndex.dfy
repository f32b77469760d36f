/** The snapshot index: once marked complete it names every stored snapshot, except those just being written. */
module SnapshotIndex {
  import opened Wrappers
  import opened SnapshotGraph
  import opened CursorProtocol
  import opened CursorSafety

  /** Some writer sits between putting `id` and indexing it. */
  ghost predicate Pending(processes: map<nat, Process>, id: Id) {
    exists who <- processes :: processes[who].Indexing? && processes[who].id == id
  }

  /** `legacy` are the snapshots stored before the index was kept. */
  ghost predicate Known(legacy: set<Id>, index: set<Id>, processes: map<nat, Process>, id: Id) {
    id in legacy || id in index || Pending(processes, id)
  }

  /** A rebuild still has every legacy snapshot in hand that it has not written. */
  ghost predicate RebuildOk(legacy: set<Id>, s: Shared, p: Process) {
    && (p.RebuildListing? ==> legacy <= p.start)
    && (p.RebuildWriting? ==> legacy <= s.index + p.todo)
  }

  ghost predicate Recorded(legacy: set<Id>, s: State) {
    && legacy <= s.shared.store.Keys
    && (forall id <- s.shared.store :: Known(legacy, s.shared.index, s.processes, id))
    && (s.shared.complete ==> legacy <= s.shared.index)
    && (forall who <- s.processes :: RebuildOk(legacy, s.shared, s.processes[who]))
  }

  lemma {:induction false} ActRecords(legacy: set<Id>, hash: Hash, s: Shared, who: nat, p: Process, listed: set<Id>,
                                      pick: Id)
    requires legacy <= s.store.Keys && RebuildOk(legacy, s, p) && (s.complete ==> legacy <= s.index)
    ensures var (later, q) := Act(hash, s, who, p, listed, pick);
      && s.index <= later.index && RebuildOk(legacy, later, q) && (later.complete ==> legacy <= later.index)
  {
    hide Created, Put;
    if p.Putting? {
      PutKeepsIndex(hash, s, Created(p.task, p.parent));
    }
  }

  lemma {:induction false} PutKeepsIndex(hash: Hash, s: Shared, snapshot: Snapshot)
    ensures var later := Put(hash, s, snapshot);
      && later.index == s.index && later.complete == s.complete
      && later.store.Keys == s.store.Keys + {hash(snapshot)}
  {
  }

  /** What is newly stored has its writer pending; what stops being pending is indexed. */
  lemma {:induction false} ActKnows(hash: Hash, s: Shared, who: nat, p: Process, listed: set<Id>, pick: Id, id: Id)
    requires id in Act(hash, s, who, p, listed, pick).0.store
    ensures var (later, q) := Act(hash, s, who, p, listed, pick);
      && (id !in s.store ==> q.Indexing? && q.id == id)
      && (p.Indexing? && p.id == id ==> id in later.index)
  {
    hide Saved, Created, Put;
    if p.Putting? {
      PutKeepsIndex(hash, s, Created(p.task, p.parent));
    }
  }

  lemma {:induction false} StillKnown(legacy: set<Id>, hash: Hash, s: State, step: Step, id: Id)
    requires Recorded(legacy, s) && step.Go? && step.who in s.processes && id in After(hash, s, step).shared.store
    requires s.shared.index <= After(hash, s, step).shared.index
    ensures Known(legacy, After(hash, s, step).shared.index, After(hash, s, step).processes, id)
  {
    hide Act;
    var later, who := After(hash, s, step), step.who;
    ActKnows(hash, s.shared, who, s.processes[who], step.listed, step.pick, id);
    if id !in s.shared.store {
      assert later.processes[who].Indexing?;
    } else {
      assert Known(legacy, s.shared.index, s.processes, id);
      if Pending(s.processes, id) {
        var other :| other in s.processes && s.processes[other].Indexing? && s.processes[other].id == id;
        assert other != who ==> later.processes[other] == s.processes[other];
      }
    }
  }

  lemma {:induction false} StepRecords(legacy: set<Id>, hash: Hash, s: State, step: Step)
    requires Recorded(legacy, s)
    ensures Recorded(legacy, After(hash, s, step))
  {
    hide Act, RebuildOk, Known, CanStart, CursorOf;
    var later := After(hash, s, step);
    if step.Go? && step.who in s.processes {
      var who := step.who;
      ActRecords(legacy, hash, s.shared, who, s.processes[who], step.listed, step.pick);
      ActGrowsStore(hash, s.shared, who, s.processes[who], step.listed, step.pick);
      forall id <- later.shared.store ensures Known(legacy, later.shared.index, later.processes, id) {
        StillKnown(legacy, hash, s, step, id);
      }
      forall other <- later.processes ensures RebuildOk(legacy, later.shared, later.processes[other]) {
        if other != who {
          RebuildGrows(legacy, s.shared, later.shared, s.processes[other]);
        }
      }
    } else if later != s {
      StartRecords(legacy, hash, s, step);
    }
  }

  lemma {:induction false} RebuildGrows(legacy: set<Id>, s: Shared, later: Shared, p: Process)
    requires RebuildOk(legacy, s, p) && s.index <= later.index
    ensures RebuildOk(legacy, later, p)
  {
  }

  lemma {:induction false} StartRecords(legacy: set<Id>, hash: Hash, s: State, step: Step)
    requires Recorded(legacy, s) && !step.Go?
    ensures Recorded(legacy, After(hash, s, step))
  {
    hide CanStart, CursorOf;
    var later := After(hash, s, step);
    forall id <- later.shared.store ensures Known(legacy, later.shared.index, later.processes, id) {
      assert Known(legacy, s.shared.index, s.processes, id);
      if Pending(s.processes, id) {
        var other :| other in s.processes && s.processes[other].Indexing? && s.processes[other].id == id;
        assert later.processes[other] == s.processes[other];
      }
    }
  }

  lemma {:induction false} RunRecords(legacy: set<Id>, hash: Hash, s: State, steps: seq<Step>)
    requires Recorded(legacy, s)
    ensures Recorded(legacy, Run(hash, s, steps))
    decreases |steps|
  {
    hide Recorded, After;
    if steps != [] {
      StepRecords(legacy, hash, s, steps[0]);
      RunRecords(legacy, hash, After(hash, s, steps[0]), steps[1..]);
    }
  }

  /** A repository with no operation under way; its index is complete if it says so. */
  ghost predicate Quiet(hash: Hash, s: State) {
    SharedOk(hash, s.shared) && s.processes == map[] && (s.shared.complete ==> s.shared.store.Keys <= s.shared.index)
  }

  /**
   * In every state that any interleaving reaches from a quiet repository: once the index is marked complete, each
   * stored snapshot is indexed or its writer is about to index it, even while a rebuild races with writers.
   */
  lemma {:induction false} NothingIsForgotten(hash: Hash, s: State, steps: seq<Step>, id: Id)
    requires Quiet(hash, s)
    requires Run(hash, s, steps).shared.complete && id in Run(hash, s, steps).shared.store
    ensures id in Run(hash, s, steps).shared.index || Pending(Run(hash, s, steps).processes, id)
  {
    hide Run, SharedOk, Pending;
    var legacy := s.shared.store.Keys;
    RunRecords(legacy, hash, s, steps);
    assert Known(legacy, Run(hash, s, steps).shared.index, Run(hash, s, steps).processes, id);
  }

  /** What is indexed, and what is about to be, is stored. */
  ghost predicate OnlyStored(s: State) {
    && s.shared.index <= s.shared.store.Keys
    && forall who <- s.processes :: HasStored(s.shared, s.processes[who])
  }

  ghost predicate HasStored(s: Shared, p: Process) {
    && (p.Indexing? ==> p.id in s.store)
    && (p.RebuildWriting? ==> p.todo <= s.store.Keys)
  }

  lemma {:induction false} ActStores(hash: Hash, s: Shared, who: nat, p: Process, listed: set<Id>, pick: Id)
    requires s.index <= s.store.Keys && HasStored(s, p)
    ensures var (later, q) := Act(hash, s, who, p, listed, pick);
      later.index <= later.store.Keys && HasStored(later, q)
  {
    hide Created, Put;
    if p.Putting? {
      PutKeepsIndex(hash, s, Created(p.task, p.parent));
    }
  }

  lemma {:induction false} StepStores(hash: Hash, s: State, step: Step)
    requires OnlyStored(s)
    ensures OnlyStored(After(hash, s, step))
  {
    hide Act, CanStart, CursorOf;
    if step.Go? && step.who in s.processes {
      ActStores(hash, s.shared, step.who, s.processes[step.who], step.listed, step.pick);
      ActGrowsStore(hash, s.shared, step.who, s.processes[step.who], step.listed, step.pick);
    }
  }

  /**
   * In every reachable state the index names only stored snapshots, so that once it is complete and no writer is
   * between storing and indexing, it names exactly those.
   */
  lemma {:induction false} IndexIsExact(hash: Hash, s: State, steps: seq<Step>)
    requires Quiet(hash, s) && s.shared.index <= s.shared.store.Keys
    ensures var end := Run(hash, s, steps);
      && end.shared.index <= end.shared.store.Keys
      && (end.shared.complete && (forall id :: !Pending(end.processes, id)) ==>
            end.shared.index == end.shared.store.Keys)
  {
    hide Run, SharedOk, Pending;
    RunStores(hash, s, steps);
    var end := Run(hash, s, steps);
    if end.shared.complete && forall id :: !Pending(end.processes, id) {
      forall id <- end.shared.store ensures id in end.shared.index {
        NothingIsForgotten(hash, s, steps, id);
      }
    }
  }

  lemma {:induction false} RunStores(hash: Hash, s: State, steps: seq<Step>)
    requires OnlyStored(s)
    ensures OnlyStored(Run(hash, s, steps))
    decreases |steps|
  {
    hide OnlyStored, After;
    if steps != [] {
      StepStores(hash, s, steps[0]);
      RunStores(hash, After(hash, s, steps[0]), steps[1..]);
    }
  }

  /** The operation is past saving: it is about to move or release its cursor, or it has finished. */
  predicate HasSaved(p: Process) {
    p.Moving? || p.Releasing? || p.Resuming? || p.Jumping? || p.Landing? || p.Naming? || p.Finished?
  }

  /**
   * In every reachable state each ref names a stored snapshot whose first-parent history is finite, and an operation
   * that has moved a cursor or finished has left the tree it captured as the root of a stored snapshot.
   */
  lemma {:induction false} RepositoryIsSafe(hash: Hash, s: State, steps: seq<Step>, who: nat)
    requires Injective(hash) && Quiet(hash, s)
    ensures var end := Run(hash, s, steps);
      && Grounded(end.shared.store, end.shared.born) && end.shared.head in end.shared.refs
      && (forall c <- end.shared.refs :: end.shared.refs[c] in end.shared.store)
      && (who in end.processes && HasSaved(end.processes[who]) ==>
            TreeKept(end.shared.store, end.processes[who].task.tree))
  {
    hide Run, Grounded, TreeKept, ProcessOk, Injective;
    RunIsSafe(hash, s, steps);
    var end := Run(hash, s, steps);
    if who in end.processes && HasSaved(end.processes[who]) {
      SavedIsKept(end.shared, who, end.processes[who]);
    }
  }

  lemma {:induction false} SavedIsKept(s: Shared, who: nat, p: Process)
    requires ProcessOk(s, who, p) && HasSaved(p)
    ensures TreeKept(s.store, p.task.tree)
  {
    hide TreeKept, TaskOk;
  }

  /** A repository as initialised, with one snapshot on one branch, is quiet. */
  lemma {:induction false} InitialIsQuiet(hash: Hash, tree: TreeId, meta: nat, branch: Cursor)
    ensures var snapshot := Snapshot(tree, [], meta);
      Quiet(hash, State(Shared(map[hash(snapshot) := snapshot], map[hash(snapshot) := 0],
                               map[branch := hash(snapshot)], branch, map[], {hash(snapshot)}, true, None), map[]))
  {
  }
}
