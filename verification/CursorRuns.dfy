/** Safety over whole runs: histories only grow, racing saves agree, and nothing saved is forgotten. */
module CursorRuns {
  import opened Wrappers
  import opened SnapshotGraph
  import opened CursorProtocol
  import opened CursorSafety

  /** The process about to act in this step. */
  function Actor(s: State, step: Step): (p: Option<Process>) {
    if step.Go? && step.who in s.processes then Some(s.processes[step.who]) else None
  }

  /** A restore or a workspace switch writes the cursor. */
  predicate Moves(s: State, step: Step, c: Cursor) {
    var p := Actor(s, step);
    p.Some? && (p.value.Moving? || p.value.Landing?) && p.value.task.cursor == c
  }

  /** A save advances the cursor. */
  predicate Advances(s: State, step: Step, c: Cursor) {
    var p := Actor(s, step);
    p.Some? && p.value.Advancing? && p.value.task.cursor == c
  }

  predicate NoMoves(hash: Hash, s: State, steps: seq<Step>, c: Cursor)
    decreases |steps|
  {
    steps == [] || (!Moves(s, steps[0], c) && NoMoves(hash, After(hash, s, steps[0]), steps[1..], c))
  }

  lemma {:induction false} BackGrows(store: Store, later: Store, id: Id, n: nat)
    requires StoreGrows(store, later) && Back(store, id, n).Some?
    ensures Back(later, id, n) == Back(store, id, n)
    decreases n
  {
    if n > 0 {
      BackGrows(store, later, store[id].parents[0], n - 1);
    }
  }

  lemma {:induction false} BackJoins(store: Store, id: Id, m: nat, n: nat)
    requires Back(store, id, m).Some?
    ensures Back(store, id, m + n) == Back(store, Back(store, id, m).value, n)
    decreases m
  {
    if m > 0 {
      BackJoins(store, store[id].parents[0], m - 1, n);
    }
  }

  lemma {:induction false} AncestorGrows(store: Store, later: Store, old_: Id, new_: Id)
    requires StoreGrows(store, later) && Ancestor(store, old_, new_)
    ensures Ancestor(later, old_, new_)
  {
    var n: nat :| Back(store, new_, n) == Some(old_);
    BackGrows(store, later, new_, n);
  }

  lemma {:induction false} AncestorJoins(store: Store, a: Id, b: Id, c: Id)
    requires Ancestor(store, a, b) && Ancestor(store, b, c)
    ensures Ancestor(store, a, c)
  {
    var m: nat :| Back(store, c, m) == Some(b);
    var n: nat :| Back(store, b, n) == Some(a);
    BackJoins(store, c, m, n);
    assert Back(store, c, m + n) == Some(a);
  }

  /** How one step may change an existing cursor that it does not move. */
  lemma {:induction false} StepAdvances(hash: Hash, s: State, step: Step, c: Cursor)
    requires Safe(hash, s) && c in s.shared.refs && !Moves(s, step, c)
    ensures var later := After(hash, s, step).shared;
      && c in later.refs && StoreGrows(s.shared.store, later.store)
      && (if Advances(s, step, c) then later.refs[c] == Actor(s, step).value.id else later.refs[c] == s.shared.refs[c])
  {
    hide SharedOk, Saved, Put, Created, CanStart, CursorOf;
    if step.Go? && step.who in s.processes {
      assert ProcessOk(s.shared, step.who, s.processes[step.who]);
      ActGrowsStore(hash, s.shared, step.who, s.processes[step.who], step.listed, step.pick);
      ActRef(hash, s.shared, step.who, s.processes[step.who], step.listed, step.pick, c);
    }
  }

  lemma {:induction false} ActRef(hash: Hash, s: Shared, who: nat, p: Process, listed: set<Id>, pick: Id, c: Cursor)
    requires c in s.refs && !((p.Moving? || p.Landing?) && p.task.cursor == c)
    ensures var refs := Act(hash, s, who, p, listed, pick).0.refs;
      c in refs && refs[c] == if p.Advancing? && p.task.cursor == c then p.id else s.refs[c]
  {
    hide Saved, Created;
  }

  /** An advancing process builds on the tip it replaces; a changed-only one brings another tree. */
  lemma {:induction false} AdvanceBuildsOnTip(hash: Hash, s: State, step: Step, c: Cursor)
    requires Safe(hash, s) && c in s.shared.refs && Advances(s, step, c)
    ensures var store, t, id := s.shared.store, Actor(s, step).value.task, Actor(s, step).value.id;
      && id in store && s.shared.refs[c] in store
      && store[id].parents == [s.shared.refs[c]] && store[id].root == t.tree
      && (t.goal.SaveAlways? || store[s.shared.refs[c]].root != t.tree)
  {
    hide SharedOk;
    assert ProcessOk(s.shared, step.who, s.processes[step.who]);
  }

  lemma {:induction false} StepKeepsAncestor(hash: Hash, s: State, step: Step, c: Cursor)
    requires Safe(hash, s) && c in s.shared.refs && !Moves(s, step, c)
    ensures var later := After(hash, s, step).shared;
      c in later.refs && StoreGrows(s.shared.store, later.store)
      && Ancestor(later.store, s.shared.refs[c], later.refs[c])
  {
    hide Safe, After, Actor, StoreGrows;
    StepAdvances(hash, s, step, c);
    var store, tip := After(hash, s, step).shared.store, s.shared.refs[c];
    if Advances(s, step, c) {
      AdvanceBuildsOnTip(hash, s, step, c);
      OneBack(s.shared.store, store, tip, Actor(s, step).value.id);
    } else {
      assert Back(store, tip, 0) == Some(tip);
    }
  }

  lemma {:induction false} OneBack(store: Store, later: Store, tip: Id, id: Id)
    requires StoreGrows(store, later) && id in store && store[id].parents == [tip]
    ensures Ancestor(later, tip, id)
  {
    assert Back(later, tip, 0) == Some(tip);
    assert Back(later, id, 1) == Some(tip);
  }

  lemma {:induction false} SameStoreGrows(a: Store, b: Store, c: Store)
    requires StoreGrows(a, b) && StoreGrows(b, c)
    ensures StoreGrows(a, c)
  {
  }

  /** Between moves, each old tip of a cursor is an ancestor of every later tip. */
  lemma {:induction false} TipsOnlyGrow(hash: Hash, s: State, steps: seq<Step>, c: Cursor)
    requires Injective(hash) && Safe(hash, s) && c in s.shared.refs && NoMoves(hash, s, steps, c)
    ensures var end := Run(hash, s, steps).shared;
      c in end.refs && StoreGrows(s.shared.store, end.store) && Ancestor(end.store, s.shared.refs[c], end.refs[c])
    decreases |steps|
  {
    hide Safe, After, Injective, StoreGrows, Moves;
    if steps == [] {
      SameState(s.shared.store);
      assert Back(s.shared.store, s.shared.refs[c], 0) == Some(s.shared.refs[c]);
    } else {
      var next := After(hash, s, steps[0]);
      StepKeepsAncestor(hash, s, steps[0], c);
      StepIsSafe(hash, s, steps[0]);
      TipsOnlyGrow(hash, next, steps[1..], c);
      var end := Run(hash, next, steps[1..]).shared;
      SameStoreGrows(s.shared.store, next.shared.store, end.store);
      AncestorGrows(next.shared.store, end.store, s.shared.refs[c], next.shared.refs[c]);
      AncestorJoins(end.store, s.shared.refs[c], next.shared.refs[c], end.refs[c]);
    }
  }

  lemma {:induction false} SameState(store: Store)
    ensures StoreGrows(store, store)
  {
  }

  /** How many saves advance the cursor in a run. */
  function Saves(hash: Hash, s: State, steps: seq<Step>, c: Cursor): (n: nat)
    decreases |steps|
  {
    if steps == [] then 0
    else (if Advances(s, steps[0], c) then 1 else 0) + Saves(hash, After(hash, s, steps[0]), steps[1..], c)
  }

  /** Only changed-only requests that captured `tree` write the cursor in this run. */
  predicate OnlyChangedTo(hash: Hash, s: State, steps: seq<Step>, c: Cursor, tree: TreeId)
    decreases |steps|
  {
    steps == [] || (
      && !Moves(s, steps[0], c)
      && (Advances(s, steps[0], c) ==> Requests(Actor(s, steps[0]).value.task, tree))
      && OnlyChangedTo(hash, After(hash, s, steps[0]), steps[1..], c, tree))
  }

  predicate Requests(t: Task, tree: TreeId) {
    !t.goal.SaveAlways? && t.tree == tree
  }

  ghost predicate TipHas(s: Shared, c: Cursor, tree: TreeId) {
    c in s.refs && s.refs[c] in s.store && s.store[s.refs[c]].root == tree
  }

  lemma {:induction false} StepSaves(hash: Hash, s: State, step: Step, c: Cursor, tree: TreeId)
    requires Safe(hash, s) && c in s.shared.refs && !Moves(s, step, c)
    requires Advances(s, step, c) ==> Requests(Actor(s, step).value.task, tree)
    ensures c in After(hash, s, step).shared.refs
    ensures Advances(s, step, c) ==> !TipHas(s.shared, c, tree) && TipHas(After(hash, s, step).shared, c, tree)
    ensures TipHas(s.shared, c, tree) ==> TipHas(After(hash, s, step).shared, c, tree)
  {
    hide Safe, After, Actor;
    StepAdvances(hash, s, step, c);
    if Advances(s, step, c) {
      AdvanceBuildsOnTip(hash, s, step, c);
    }
  }

  /** Racing changed-only requests that captured one tree save it at most once, and not at all if the tip has it. */
  lemma {:induction false} RacingSavesAgree(hash: Hash, s: State, steps: seq<Step>, c: Cursor, tree: TreeId)
    requires Injective(hash) && Safe(hash, s) && c in s.shared.refs && OnlyChangedTo(hash, s, steps, c, tree)
    ensures Saves(hash, s, steps, c) <= if TipHas(s.shared, c, tree) then 0 else 1
    decreases |steps|
  {
    hide Safe, After, Injective, Moves, Advances, TipHas, Requests;
    if steps != [] {
      StepSaves(hash, s, steps[0], c, tree);
      StepIsSafe(hash, s, steps[0]);
      RacingSavesAgree(hash, After(hash, s, steps[0]), steps[1..], c, tree);
    }
  }
}
