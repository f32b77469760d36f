/**
 * Repository operations as interleaved processes over shared metadata. Each captures outside the lock, then locks its
 * cursor, reads the tip again, stores, indexes and advances the ref, one atomic file operation at a time.
 */
module CursorProtocol {
  import opened Wrappers
  import opened SnapshotGraph

  type Hash = Snapshot -> Id

  datatype Cursor = Branch(name: nat) | Workspace(name: nat)

  datatype Goal =
    | SaveAlways
    | SaveIfChanged
    | Restore(target: Id)
    | Switch(branch: Cursor)
    | CreateRef(name: Cursor)

  /** What an operation set out to do, from which handle, and the tree it captured beforehand. */
  datatype Task = Task(goal: Goal, workspace: Option<Cursor>, cursor: Cursor, tree: TreeId, meta: nat)

  datatype Process =
    | Waiting(task: Task)
    | Holding(task: Task)
    | Comparing(task: Task, parent: Id)
    | Putting(task: Task, parent: Id)
    | Indexing(task: Task, parent: Id, id: Id)
    | Advancing(task: Task, parent: Id, id: Id)
    | Moving(task: Task)
    | Releasing(task: Task, more: bool)
    | Resuming(task: Task)
    | Jumping(task: Task, target: Id)
    | Landing(task: Task, target: Id)
    | Naming(task: Task, id: Id)
    | Finished(task: Task, ok: bool)
    | RebuildWaiting
    | RebuildHolding
    | RebuildListing(start: set<Id>)
    | RebuildWriting(todo: set<Id>)
    | RebuildDone

  /** The metadata directory: what every process sees. `born` only records the order of puts. */
  datatype Shared = Shared(store: Store, born: Births, refs: map<Cursor, Id>, head: Cursor, locks: map<Cursor, nat>,
                           index: set<Id>, complete: bool, indexLock: Option<nat>)

  datatype State = State(shared: Shared, processes: map<nat, Process>)

  datatype Step =
    | Start(who: nat, goal: Goal, workspace: Option<Cursor>, tree: TreeId, meta: nat)
    | StartRebuild(who: nat)
    | Go(who: nat, listed: set<Id>, pick: Id)

  predicate CanStart(s: Shared, goal: Goal, workspace: Option<Cursor>) {
    && (workspace.Some? ==> workspace.value in s.refs)
    && match goal
      case Restore(target) => target in s.store
      case Switch(branch) => branch in s.refs
      case CreateRef(name) => name !in s.refs
      case _ => true
  }

  /** The cursor a handle works on: its workspace, or the branch HEAD names. */
  function CursorOf(s: Shared, workspace: Option<Cursor>): (cursor: Cursor) {
    if workspace.Some? then workspace.value else s.head
  }

  function Created(task: Task, parent: Id): (snapshot: Snapshot) {
    Snapshot(task.tree, [parent], task.meta)
  }

  /** Puts a snapshot unless it is already stored. */
  function Put(hash: Hash, s: Shared, snapshot: Snapshot): (next: Shared) {
    var id := hash(snapshot);
    if id in s.store then s else s.(store := s.store[id := snapshot], born := s.born[id := |s.store|])
  }

  /** After the tip is right for saving: restore goes on to move the cursor, the others let go of it. */
  function Saved(task: Task): (next: Process) {
    match task.goal
    case Restore(_) => Moving(task)
    case Switch(_) => Releasing(task, true)
    case CreateRef(_) => Releasing(task, true)
    case _ => Releasing(task, false)
  }

  /** One atomic step of a process, on the shared state and on itself. */
  function Act(hash: Hash, s: Shared, who: nat, p: Process, listed: set<Id>, pick: Id): (next: (Shared, Process)) {
    match p
    case Waiting(t) =>
      if t.cursor in s.locks then (s, p) else (s.(locks := s.locks[t.cursor := who]), Holding(t))
    case Holding(t) => if t.cursor in s.refs then (s, Comparing(t, s.refs[t.cursor])) else (s, p)
    case Comparing(t, parent) =>
      if t.goal.SaveAlways? then (s, Putting(t, parent))
      else if parent !in s.store then (s, p)
      else (s, if s.store[parent].root == t.tree then Saved(t) else Putting(t, parent))
    case Putting(t, parent) =>
      (Put(hash, s, Created(t, parent)), Indexing(t, parent, hash(Created(t, parent))))
    case Indexing(t, parent, id) => (s.(index := s.index + {id}), Advancing(t, parent, id))
    case Advancing(t, _, id) => (s.(refs := s.refs[t.cursor := id]), Saved(t))
    case Moving(t) =>
      if t.goal.Restore? then (s.(refs := s.refs[t.cursor := t.goal.target]), Releasing(t, false)) else (s, p)
    case Releasing(t, more) => (s.(locks := s.locks - {t.cursor}), if more then Resuming(t) else Finished(t, true))
    case Resuming(t) => Resume(s, t)
    case Jumping(t, target) =>
      if t.cursor in s.locks then (s, p) else (s.(locks := s.locks[t.cursor := who]), Landing(t, target))
    case Landing(t, target) => (s.(refs := s.refs[t.cursor := target]), Releasing(t, false))
    case Naming(t, id) =>
      if !t.goal.CreateRef? then (s, p)
      else if t.goal.name in s.refs then (s, Finished(t, false))
      else (s.(refs := s.refs[t.goal.name := id]), Finished(t, true))
    case Finished(_, _) => (s, p)
    case RebuildWaiting =>
      if s.complete then (s, RebuildDone)
      else if s.indexLock.Some? then (s, p)
      else (s.(indexLock := Some(who)), RebuildHolding)
    case RebuildHolding =>
      if s.complete then (s.(indexLock := None), RebuildDone) else (s, RebuildListing(s.store.Keys))
    case RebuildListing(start) =>
      if start <= listed <= s.store.Keys then (s, RebuildWriting(listed)) else (s, p)
    case RebuildWriting(todo) =>
      if todo == {} then (s.(complete := true, indexLock := None), RebuildDone)
      else if pick in todo then (s.(index := s.index + {pick}), RebuildWriting(todo - {pick}))
      else (s, p)
    case RebuildDone => (s, p)
  }

  /** What is left of a switch or of creating a ref once the current work is saved. */
  function Resume(s: Shared, t: Task): (next: (Shared, Process)) {
    match t.goal
    case Switch(branch) =>
      if branch !in s.refs then (s, Finished(t, false))
      else if t.workspace.None? then (s.(head := branch), Finished(t, true))
      else (s, Jumping(t, s.refs[branch]))
    case CreateRef(_) =>
      var cursor := CursorOf(s, t.workspace);
      if cursor in s.refs then (s, Naming(t, s.refs[cursor])) else (s, Finished(t, false))
    case _ => (s, Finished(t, true))
  }

  /** One step of the system; a step that is not possible changes nothing. */
  function After(hash: Hash, s: State, step: Step): (next: State) {
    match step
    case Start(who, goal, workspace, tree, meta) =>
      if who in s.processes || !CanStart(s.shared, goal, workspace) then s
      else
        var task := Task(goal, workspace, CursorOf(s.shared, workspace), tree, meta);
        State(s.shared, s.processes[who := Waiting(task)])
    case StartRebuild(who) =>
      if who in s.processes then s else State(s.shared, s.processes[who := RebuildWaiting])
    case Go(who, listed, pick) =>
      if who !in s.processes then s
      else
        var (shared, process) := Act(hash, s.shared, who, s.processes[who], listed, pick);
        State(shared, s.processes[who := process])
  }

  function Run(hash: Hash, s: State, steps: seq<Step>): (end: State)
    decreases |steps|
  {
    if steps == [] then s else Run(hash, After(hash, s, steps[0]), steps[1..])
  }

  ghost predicate Injective(hash: Hash) {
    forall a: Snapshot, b: Snapshot :: hash(a) == hash(b) ==> a == b
  }

  /** The captured tree is the root of some stored snapshot. */
  ghost predicate TreeKept(store: Store, tree: TreeId) {
    exists id <- store :: store[id].root == tree
  }

  predicate HoldsLock(p: Process) {
    p.Holding? || p.Comparing? || p.Putting? || p.Indexing? || p.Advancing? || p.Moving? || p.Releasing? || p.Landing?
  }

  predicate IsRebuild(p: Process) {
    p.RebuildWaiting? || p.RebuildHolding? || p.RebuildListing? || p.RebuildWriting? || p.RebuildDone?
  }

  /** From reading the tip until writing it, nobody else moves it. */
  ghost predicate TipIs(s: Shared, t: Task, parent: Id) {
    t.cursor in s.refs && s.refs[t.cursor] == parent && parent in s.store
  }

  /** A changed-only save goes ahead only where the tip has another tree. */
  ghost predicate Changed(s: Shared, t: Task, parent: Id) {
    parent in s.store && (t.goal.SaveAlways? || s.store[parent].root != t.tree)
  }

  ghost predicate SavedAs(s: Shared, t: Task, parent: Id, id: Id) {
    id in s.store && s.store[id] == Snapshot(t.tree, [parent], t.meta)
  }

  ghost predicate TaskOk(s: Shared, t: Task) {
    && t.cursor in s.refs && (t.workspace.Some? ==> t.cursor == t.workspace.value)
    && (t.goal.Restore? ==> t.goal.target in s.store)
    && (t.goal.Switch? ==> t.goal.branch in s.refs)
  }

  /** The operation has more to do once its work is saved. */
  predicate GoesOn(t: Task) {
    t.goal.Switch? || t.goal.CreateRef?
  }

  /** A workspace switch locks its cursor a second time. */
  predicate Jumps(t: Task) {
    t.goal.Switch? && t.workspace.Some?
  }

  /** The operation ends by releasing its cursor. */
  predicate EndsHere(t: Task) {
    !t.goal.CreateRef? && (t.goal.Switch? ==> t.workspace.Some?)
  }

  ghost predicate ProcessOk(s: Shared, who: nat, p: Process) {
    && (HoldsLock(p) ==> p.task.cursor in s.locks && s.locks[p.task.cursor] == who)
    && (!IsRebuild(p) ==> TaskOk(s, p.task))
    && match p
      case Comparing(t, parent) => TipIs(s, t, parent)
      case Putting(t, parent) => TipIs(s, t, parent) && Changed(s, t, parent)
      case Indexing(t, parent, id) => TipIs(s, t, parent) && Changed(s, t, parent) && SavedAs(s, t, parent, id)
      case Advancing(t, parent, id) => TipIs(s, t, parent) && Changed(s, t, parent) && SavedAs(s, t, parent, id)
      case Moving(t) => t.goal.Restore? && TreeKept(s.store, t.tree)
      case Releasing(t, more) => TreeKept(s.store, t.tree) && (if more then GoesOn(t) else EndsHere(t))
      case Resuming(t) => TreeKept(s.store, t.tree) && GoesOn(t)
      case Jumping(t, target) => target in s.store && TreeKept(s.store, t.tree) && Jumps(t)
      case Landing(t, target) => target in s.store && TreeKept(s.store, t.tree) && Jumps(t)
      case Naming(t, id) => id in s.store && TreeKept(s.store, t.tree) && t.goal.CreateRef?
      case Finished(t, _) => TreeKept(s.store, t.tree)
      case _ => true
  }

  ghost predicate SharedOk(hash: Hash, s: Shared) {
    && Grounded(s.store, s.born)
    && (forall id <- s.store :: hash(s.store[id]) == id && id in s.born && s.born[id] < |s.store|)
    && (forall c <- s.refs :: s.refs[c] in s.store)
    && s.head in s.refs
  }

  ghost predicate ProcessesOk(s: Shared, processes: map<nat, Process>) {
    forall who <- processes :: ProcessOk(s, who, processes[who])
  }

  /** Everything the cursor protocol keeps. */
  ghost predicate Safe(hash: Hash, s: State) {
    SharedOk(hash, s.shared) && ProcessesOk(s.shared, s.processes)
  }
}
