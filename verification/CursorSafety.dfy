/** What every step of the cursor protocol keeps, under any interleaving. */
module CursorSafety {
  import opened Wrappers
  import opened SnapshotGraph
  import opened CursorProtocol

  ghost predicate StoreGrows(store: Store, later: Store) {
    forall id <- store :: id in later && later[id] == store[id]
  }

  /** What one process may do to the others: it moves only cursors it has locked, and breaks no lock but its own. */
  ghost predicate Undisturbed(s: Shared, later: Shared, who: nat) {
    && StoreGrows(s.store, later.store)
    && (forall c <- s.refs :: c in later.refs && (later.refs[c] == s.refs[c] || (c in s.locks && s.locks[c] == who)))
    && (forall c <- s.locks :: s.locks[c] != who ==> c in later.locks && later.locks[c] == s.locks[c])
  }

  lemma {:induction false} ActUndisturbed(hash: Hash, s: Shared, who: nat, p: Process, listed: set<Id>, pick: Id)
    requires ProcessOk(s, who, p)
    ensures Undisturbed(s, Act(hash, s, who, p, listed, pick).0, who)
  {
    hide Act, ProcessOk;
    ActGrowsStore(hash, s, who, p, listed, pick);
    ActMovesOwnRefs(hash, s, who, p, listed, pick);
    ActKeepsLocks(hash, s, who, p, listed, pick);
  }

  lemma {:induction false} ActGrowsStore(hash: Hash, s: Shared, who: nat, p: Process, listed: set<Id>, pick: Id)
    ensures StoreGrows(s.store, Act(hash, s, who, p, listed, pick).0.store)
  {
    hide Saved;
  }

  lemma {:induction false} ActMovesOwnRefs(hash: Hash, s: Shared, who: nat, p: Process, listed: set<Id>, pick: Id)
    requires ProcessOk(s, who, p)
    ensures var refs := Act(hash, s, who, p, listed, pick).0.refs;
      forall c <- s.refs :: c in refs && (refs[c] == s.refs[c] || (c in s.locks && s.locks[c] == who))
  {
    hide TaskOk, TipIs, Changed, SavedAs, TreeKept, Saved;
  }

  lemma {:induction false} ActKeepsLocks(hash: Hash, s: Shared, who: nat, p: Process, listed: set<Id>, pick: Id)
    requires ProcessOk(s, who, p)
    ensures var locks := Act(hash, s, who, p, listed, pick).0.locks;
      forall c <- s.locks :: s.locks[c] != who ==> c in locks && locks[c] == s.locks[c]
  {
    hide TaskOk, TipIs, Changed, SavedAs, TreeKept, Saved;
  }

  lemma {:induction false} KeptGrows(store: Store, later: Store, tree: TreeId)
    requires StoreGrows(store, later) && TreeKept(store, tree)
    ensures TreeKept(later, tree)
  {
    var id :| id in store && store[id].root == tree;
    assert id in later;
  }

  lemma {:induction false} OtherOk(s: Shared, later: Shared, who: nat, other: nat, p: Process)
    requires Undisturbed(s, later, who) && other != who && ProcessOk(s, other, p)
    ensures ProcessOk(later, other, p)
  {
    hide TreeKept;
    if TreeOf(p).Some? && TreeKept(s.store, TreeOf(p).value) {
      KeptGrows(s.store, later.store, TreeOf(p).value);
    }
  }

  function TreeOf(p: Process): (tree: Option<TreeId>) {
    if IsRebuild(p) then None else Some(p.task.tree)
  }

  /** Putting a snapshot whose parent is stored keeps the history grounded. */
  lemma {:induction false} PutKeepsGrounded(hash: Hash, s: Shared, snapshot: Snapshot, parent: Id)
    requires SharedOk(hash, s) && snapshot.parents == [parent] && parent in s.store
    ensures SharedOk(hash, Put(hash, s, snapshot))
  {
    var id := hash(snapshot);
    if id !in s.store {
      var later := Put(hash, s, snapshot);
      forall x <- later.store ensures x in later.born && ParentsEarlier(later.store, later.born, x,
                                                                        later.store[x].parents)
      {
        if x == id {
          assert snapshot.parents[1..] == [];
        } else {
          assert ParentsEarlier(s.store, s.born, x, s.store[x].parents);
          EarlierGrows(s.store, s.born, later.store, later.born, x, s.store[x].parents);
        }
      }
    }
  }

  lemma {:induction false} EarlierGrows(store: Store, born: Births, later: Store, bornLater: Births, id: Id,
                                        parents: seq<Id>)
    requires id in born && ParentsEarlier(store, born, id, parents)
    requires StoreGrows(store, later)
    requires forall x <- store :: x in born && x in bornLater && bornLater[x] == born[x]
    requires id in store
    ensures ParentsEarlier(later, bornLater, id, parents)
    decreases |parents|
  {
    if parents != [] {
      EarlierGrows(store, born, later, bornLater, id, parents[1..]);
    }
  }

  /** The step that stores: the snapshot under the new id is the one created. */
  lemma {:induction false} PutOk(hash: Hash, s: Shared, who: nat, t: Task, parent: Id)
    requires Injective(hash) && SharedOk(hash, s) && ProcessOk(s, who, Putting(t, parent))
    ensures SharedOk(hash, Put(hash, s, Created(t, parent)))
    ensures ProcessOk(Put(hash, s, Created(t, parent)), who, Indexing(t, parent, hash(Created(t, parent))))
  {
    hide Grounded;
    PutKeepsGrounded(hash, s, Created(t, parent), parent);
  }

  /** Steps that leave the store alone and the refs valid. */
  lemma {:induction false} ActSharedOk(hash: Hash, s: Shared, who: nat, p: Process, listed: set<Id>, pick: Id)
    requires SharedOk(hash, s) && ProcessOk(s, who, p) && !p.Putting?
    ensures SharedOk(hash, Act(hash, s, who, p, listed, pick).0)
  {
    hide Grounded, TreeKept, Saved, Changed;
  }

  lemma {:induction false} SavedOk(s: Shared, who: nat, t: Task)
    requires TaskOk(s, t) && t.cursor in s.locks && s.locks[t.cursor] == who && TreeKept(s.store, t.tree)
    ensures ProcessOk(s, who, Saved(t))
  {
    hide TreeKept;
  }

  lemma {:induction false} CompareOk(hash: Hash, s: Shared, who: nat, t: Task, parent: Id)
    requires SharedOk(hash, s) && ProcessOk(s, who, Comparing(t, parent))
    ensures ProcessOk(s, who, Act(hash, s, who, Comparing(t, parent), {}, 0).1)
  {
    hide Grounded, TreeKept, Saved;
    if !t.goal.SaveAlways? && s.store[parent].root == t.tree {
      KeptAs(s.store, parent);
      SavedOk(s, who, t);
    }
  }

  lemma {:induction false} KeptAs(store: Store, id: Id)
    requires id in store
    ensures TreeKept(store, store[id].root)
  {
  }

  lemma {:induction false} AdvanceOk(hash: Hash, s: Shared, who: nat, t: Task, parent: Id, id: Id)
    requires SharedOk(hash, s) && ProcessOk(s, who, Advancing(t, parent, id))
    ensures ProcessOk(s.(refs := s.refs[t.cursor := id]), who, Saved(t))
  {
    hide Grounded, TreeKept, Saved;
    KeptAs(s.store, id);
    SavedOk(s.(refs := s.refs[t.cursor := id]), who, t);
  }

  /** The process that moves stays in order. */
  lemma {:induction false} ActOk(hash: Hash, s: Shared, who: nat, p: Process, listed: set<Id>, pick: Id)
    requires Injective(hash) && SharedOk(hash, s) && ProcessOk(s, who, p)
    ensures SharedOk(hash, Act(hash, s, who, p, listed, pick).0)
    ensures ProcessOk(Act(hash, s, who, p, listed, pick).0, who, Act(hash, s, who, p, listed, pick).1)
  {
    hide Grounded, TreeKept, Saved, Created, Put;
    if p.Putting? {
      PutOk(hash, s, who, p.task, p.parent);
    } else {
      ActSharedOk(hash, s, who, p, listed, pick);
      if p.Comparing? {
        CompareOk(hash, s, who, p.task, p.parent);
      } else if p.Advancing? {
        AdvanceOk(hash, s, who, p.task, p.parent, p.id);
      } else {
        QuietOk(hash, s, who, p, listed, pick);
      }
    }
  }

  lemma {:induction false} QuietOk(hash: Hash, s: Shared, who: nat, p: Process, listed: set<Id>, pick: Id)
    requires SharedOk(hash, s) && ProcessOk(s, who, p) && !p.Putting? && !p.Comparing? && !p.Advancing?
    ensures ProcessOk(Act(hash, s, who, p, listed, pick).0, who, Act(hash, s, who, p, listed, pick).1)
  {
    hide Grounded, TreeKept, Saved, Created, Put;
    if !IsRebuild(p) {
      if p.Waiting? || p.Jumping? || p.Releasing? {
        LockingOk(hash, s, who, p, listed, pick);
      } else if p.Moving? || p.Landing? || p.Naming? {
        WritingOk(hash, s, who, p, listed, pick);
      }
    }
  }

  lemma {:induction false} LockingOk(hash: Hash, s: Shared, who: nat, p: Process, listed: set<Id>, pick: Id)
    requires ProcessOk(s, who, p) && (p.Waiting? || p.Jumping? || p.Releasing?)
    ensures ProcessOk(Act(hash, s, who, p, listed, pick).0, who, Act(hash, s, who, p, listed, pick).1)
  {
    hide Grounded, TreeKept, Saved, Created, Put;
  }

  lemma {:induction false} WritingOk(hash: Hash, s: Shared, who: nat, p: Process, listed: set<Id>, pick: Id)
    requires ProcessOk(s, who, p) && (p.Moving? || p.Landing? || p.Naming?)
    ensures ProcessOk(Act(hash, s, who, p, listed, pick).0, who, Act(hash, s, who, p, listed, pick).1)
  {
    hide Grounded, TreeKept, Saved, Created, Put;
  }

  lemma {:induction false} StepIsSafe(hash: Hash, s: State, step: Step)
    requires Injective(hash) && Safe(hash, s)
    ensures Safe(hash, After(hash, s, step))
  {
    hide SharedOk, ProcessOk, Act, Injective, CanStart, CursorOf;
    var later := After(hash, s, step);
    if step.Go? && step.who in s.processes {
      var who, p := step.who, s.processes[step.who];
      ActOk(hash, s.shared, who, p, step.listed, step.pick);
      ActUndisturbed(hash, s.shared, who, p, step.listed, step.pick);
      forall other <- later.processes ensures ProcessOk(later.shared, other, later.processes[other]) {
        if other != who {
          OtherOk(s.shared, later.shared, who, other, s.processes[other]);
        }
      }
    } else if later != s {
      StartOk(hash, s, step);
    }
  }

  lemma {:induction false} StartOk(hash: Hash, s: State, step: Step)
    requires SharedOk(hash, s.shared) && !step.Go? && After(hash, s, step) != s
    ensures ProcessOk(s.shared, step.who, After(hash, s, step).processes[step.who])
    ensures After(hash, s, step).shared == s.shared
    ensures After(hash, s, step).processes == s.processes[step.who := After(hash, s, step).processes[step.who]]
  {
    hide Grounded;
  }

  lemma {:induction false} RunIsSafe(hash: Hash, s: State, steps: seq<Step>)
    requires Injective(hash) && Safe(hash, s)
    ensures Safe(hash, Run(hash, s, steps))
    decreases |steps|
  {
    hide Safe, After, Injective;
    if steps != [] {
      StepIsSafe(hash, s, steps[0]);
      RunIsSafe(hash, After(hash, s, steps[0]), steps[1..]);
    }
  }
}
