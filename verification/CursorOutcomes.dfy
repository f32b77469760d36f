/** What finished operations have done: where each kind leaves its cursor, HEAD or the new ref. */
module CursorOutcomes {
  import opened Wrappers
  import opened SnapshotGraph
  import opened CursorProtocol
  import opened CursorSafety
  import opened SnapshotIndex

  /** The state after the first `k` steps. */
  function StateAt(hash: Hash, s: State, steps: seq<Step>, k: nat): (at: State)
    requires k <= |steps|
    decreases k
  {
    if k == 0 then s else After(hash, StateAt(hash, s, steps, k - 1), steps[k - 1])
  }

  lemma {:induction false} StateShifts(hash: Hash, s: State, steps: seq<Step>, k: nat)
    requires steps != [] && k < |steps|
    ensures StateAt(hash, s, steps, k + 1) == StateAt(hash, After(hash, s, steps[0]), steps[1..], k)
    decreases k
  {
    hide After;
    if k > 0 {
      StateShifts(hash, s, steps, k - 1);
    }
  }

  lemma {:induction false} RunIsStateAt(hash: Hash, s: State, steps: seq<Step>)
    ensures Run(hash, s, steps) == StateAt(hash, s, steps, |steps|)
    decreases |steps|
  {
    hide After;
    if steps != [] {
      RunIsStateAt(hash, After(hash, s, steps[0]), steps[1..]);
      StateShifts(hash, s, steps, |steps| - 1);
    }
  }

  lemma {:induction false} SafeAt(hash: Hash, s: State, steps: seq<Step>, k: nat)
    requires Injective(hash) && Safe(hash, s) && k <= |steps|
    ensures Safe(hash, StateAt(hash, s, steps, k))
    decreases k
  {
    hide Safe, After, Injective;
    if k > 0 {
      SafeAt(hash, s, steps, k - 1);
      StepIsSafe(hash, StateAt(hash, s, steps, k - 1), steps[k - 1]);
    }
  }

  /** The process is `p` after `k` steps. */
  ghost predicate Is(hash: Hash, s: State, steps: seq<Step>, k: nat, who: nat, p: Process) {
    k <= |steps| && who in StateAt(hash, s, steps, k).processes && StateAt(hash, s, steps, k).processes[who] == p
  }

  /** Step `k` is one of this process, and takes it from `p` to `q`. */
  ghost predicate Turns(hash: Hash, s: State, steps: seq<Step>, k: nat, who: nat, p: Process, q: Process) {
    && k < |steps| && steps[k].Go? && steps[k].who == who && p != q
    && Is(hash, s, steps, k, who, p) && Is(hash, s, steps, k + 1, who, q)
    && (StateAt(hash, s, steps, k + 1).shared, q)
        == Act(hash, StateAt(hash, s, steps, k).shared, who, p, steps[k].listed, steps[k].pick)
  }

  /** From after step `k` until step `end` the process stays `q`. */
  ghost predicate Stays(hash: Hash, s: State, steps: seq<Step>, k: nat, end: nat, who: nat, q: Process) {
    forall j: nat :: k < j <= end ==> Is(hash, s, steps, j, who, q)
  }

  /** How a process came to be what it is after `end` steps: by a step of its own, and nothing since. */
  lemma {:induction false} CameFrom(hash: Hash, s: State, steps: seq<Step>, end: nat, who: nat, q: Process)
    returns (k: nat, p: Process)
    requires s.processes == map[] && Is(hash, s, steps, end, who, q) && !q.Waiting? && !q.RebuildWaiting?
    ensures k < end && Turns(hash, s, steps, k, who, p, q) && Stays(hash, s, steps, k, end, who, q)
    decreases end
  {
    hide Act, CanStart, CursorOf;
    var before := StateAt(hash, s, steps, end - 1);
    if who in before.processes && before.processes[who] == q {
      k, p := CameFrom(hash, s, steps, end - 1, who, q);
    } else {
      ChangedByItself(hash, before, steps[end - 1], who, q);
      k, p := end - 1, before.processes[who];
    }
  }

  lemma {:induction false} ChangedByItself(hash: Hash, s: State, step: Step, who: nat, q: Process)
    requires who in After(hash, s, step).processes && After(hash, s, step).processes[who] == q
    requires !q.Waiting? && !q.RebuildWaiting? && !(who in s.processes && s.processes[who] == q)
    ensures step.Go? && step.who == who && who in s.processes
    ensures (After(hash, s, step).shared, q) == Act(hash, s.shared, who, s.processes[who], step.listed, step.pick)
  {
    hide Act, CanStart, CursorOf;
  }

  /** The cursor names `id` after `k` steps. */
  ghost predicate Names(hash: Hash, s: State, steps: seq<Step>, k: nat, c: Cursor, id: Id) {
    k <= |steps| && c in StateAt(hash, s, steps, k).shared.refs && StateAt(hash, s, steps, k).shared.refs[c] == id
  }

  /** While a process holds its lock and does not move, its cursor stays where it is. */
  lemma {:induction false} CursorHeld(hash: Hash, s: State, steps: seq<Step>, who: nat, q: Process, k: nat, end: nat,
                                      id: Id)
    requires Injective(hash) && Safe(hash, s) && k < end <= |steps|
    requires Stays(hash, s, steps, k, end, who, q) && HoldsLock(q) && Names(hash, s, steps, k + 1, q.task.cursor, id)
    ensures Names(hash, s, steps, end, q.task.cursor, id)
    decreases end
  {
    hide Safe, After, Injective, ProcessOk;
    if k + 1 < end {
      CursorHeld(hash, s, steps, who, q, k, end - 1, id);
      SafeAt(hash, s, steps, end - 1);
      assert Is(hash, s, steps, end - 1, who, q) && Is(hash, s, steps, end, who, q);
      NotMovedByOthers(hash, StateAt(hash, s, steps, end - 1), steps[end - 1], who, q);
    }
  }

  lemma {:induction false} NotMovedByOthers(hash: Hash, s: State, step: Step, who: nat, q: Process)
    requires Safe(hash, s) && who in s.processes && s.processes[who] == q && HoldsLock(q)
    requires who in After(hash, s, step).processes && After(hash, s, step).processes[who] == q
    requires q.task.cursor in s.shared.refs
    ensures q.task.cursor in After(hash, s, step).shared.refs
    ensures After(hash, s, step).shared.refs[q.task.cursor] == s.shared.refs[q.task.cursor]
  {
    hide SharedOk, Act, CanStart, CursorOf, TaskOk;
    assert ProcessOk(s.shared, who, q);
    if step.Go? && step.who in s.processes {
      var p := s.processes[step.who];
      assert ProcessOk(s.shared, step.who, p);
      if step.who == who {
        StuckMovesNothing(hash, s.shared, who, q, step.listed, step.pick);
      } else {
        ActMovesOwnRefs(hash, s.shared, step.who, p, step.listed, step.pick);
      }
    }
  }

  lemma {:induction false} StuckMovesNothing(hash: Hash, s: Shared, who: nat, q: Process, listed: set<Id>, pick: Id)
    requires HoldsLock(q) && Act(hash, s, who, q, listed, pick).1 == q && q.task.cursor in s.refs
    ensures q.task.cursor in Act(hash, s, who, q, listed, pick).0.refs
    ensures Act(hash, s, who, q, listed, pick).0.refs[q.task.cursor] == s.refs[q.task.cursor]
  {
    hide Created, Put;
  }

  /** At step `write` the process points its cursor at `id`, and so it is when it lets go of it at step `release`. */
  ghost predicate LandsOn(hash: Hash, s: State, steps: seq<Step>, who: nat, t: Task, write: nat, release: nat, id: Id) {
    && write < release < |steps|
    && (exists p: Process :: Turns(hash, s, steps, write, who, p, Releasing(t, false)))
    && Names(hash, s, steps, write + 1, t.cursor, id)
    && Turns(hash, s, steps, release, who, Releasing(t, false), Finished(t, true))
    && Names(hash, s, steps, release, t.cursor, id) && Names(hash, s, steps, release + 1, t.cursor, id)
  }

  /** The last two turns of an operation that ends by releasing its cursor. */
  lemma {:induction false} Landed(hash: Hash, s: State, steps: seq<Step>, who: nat, t: Task)
    returns (write: nat, p: Process, release: nat)
    requires Injective(hash) && Safe(hash, s) && s.processes == map[]
    requires Is(hash, s, steps, |steps|, who, Finished(t, true)) && EndsHere(t)
    ensures write < release < |steps| && Turns(hash, s, steps, write, who, p, Releasing(t, false))
    ensures Turns(hash, s, steps, release, who, Releasing(t, false), Finished(t, true))
    ensures Stays(hash, s, steps, write, release, who, Releasing(t, false))
    ensures t.cursor in StateAt(hash, s, steps, write + 1).shared.refs
    ensures LandsOn(hash, s, steps, who, t, write, release, StateAt(hash, s, steps, write + 1).shared.refs[t.cursor])
  {
    hide Safe, After, Injective, ProcessOk, StateAt;
    var q;
    release, q := CameFrom(hash, s, steps, |steps|, who, Finished(t, true));
    SafeAt(hash, s, steps, release);
    FinishedFrom(hash, StateAt(hash, s, steps, release), who, q, steps[release].listed, steps[release].pick, t);
    write, p := CameFrom(hash, s, steps, release, who, q);
    SafeAt(hash, s, steps, write + 1);
    assert Is(hash, s, steps, write + 1, who, q);
    CursorThere(hash, StateAt(hash, s, steps, write + 1), who, q);
    var id := StateAt(hash, s, steps, write + 1).shared.refs[t.cursor];
    CursorHeld(hash, s, steps, who, q, write, release, id);
    ReleaseKeepsRefs(hash, StateAt(hash, s, steps, release).shared, who, t, steps[release].listed,
                     steps[release].pick);
  }

  lemma {:induction false} ReleaseKeepsRefs(hash: Hash, s: Shared, who: nat, t: Task, listed: set<Id>, pick: Id)
    ensures Act(hash, s, who, Releasing(t, false), listed, pick).0.refs == s.refs
  {
  }

  lemma {:induction false} CursorThere(hash: Hash, s: State, who: nat, q: Process)
    requires Safe(hash, s) && who in s.processes && s.processes[who] == q && !IsRebuild(q)
    ensures q.task.cursor in s.shared.refs
  {
    hide SharedOk, TreeKept;
    assert ProcessOk(s.shared, who, q);
  }

  lemma {:induction false} FinishedFrom(hash: Hash, s: State, who: nat, p: Process, listed: set<Id>, pick: Id, t: Task)
    requires Safe(hash, s) && who in s.processes && s.processes[who] == p && p != Finished(t, true)
    requires Act(hash, s.shared, who, p, listed, pick).1 == Finished(t, true)
    ensures EndsHere(t) ==> p == Releasing(t, false)
    ensures t.goal.Switch? && t.workspace.None? ==> p == Resuming(t)
    ensures t.goal.CreateRef? ==> p.Naming? && p.task == t
  {
    hide SharedOk, TreeKept, Created, Put, CursorOf, TaskOk;
    assert ProcessOk(s.shared, who, p);
  }

  /** What the last write of an operation is, by its kind. */
  lemma {:induction false} WritesWhat(hash: Hash, s: State, who: nat, p: Process, listed: set<Id>, pick: Id, t: Task)
    requires Safe(hash, s) && who in s.processes && s.processes[who] == p && p != Releasing(t, false)
    requires Act(hash, s.shared, who, p, listed, pick).1 == Releasing(t, false)
    ensures var refs, tip := Act(hash, s.shared, who, p, listed, pick).0.refs, s.shared.refs;
      match t.goal
      case Restore(target) => p == Moving(t) && refs == tip[t.cursor := target]
      case Switch(_) => p.Landing? && p.task == t && refs == tip[t.cursor := p.target]
      case CreateRef(_) => false
      case _ =>
        && (p.Advancing? || p.Comparing?) && p.task == t && t.cursor in tip && tip[t.cursor] == p.parent
        && (p.Advancing? ==> refs == tip[t.cursor := p.id] && SavedAs(s.shared, t, p.parent, p.id)
                             && Changed(s.shared, t, p.parent))
        && (p.Comparing? ==> refs == tip && t.goal.SaveIfChanged? && p.parent in s.shared.store
                             && s.shared.store[p.parent].root == t.tree)
  {
    hide SharedOk, TreeKept, Created, Put, CursorOf;
    assert ProcessOk(s.shared, who, p);
  }

  /** A finished restore has pointed its cursor at the target, and left it there when it let go. */
  lemma {:induction false} RestoreLands(hash: Hash, s: State, steps: seq<Step>, who: nat, t: Task)
    requires Injective(hash) && Quiet(hash, s) && t.goal.Restore?
    requires Is(hash, s, steps, |steps|, who, Finished(t, true))
    ensures exists write: nat, release: nat :: LandsOn(hash, s, steps, who, t, write, release, t.goal.target)
  {
    hide Safe, Injective, Turns, Stays, StateAt, LandsOn;
    QuietIsSafe(hash, s);
    var write, p, release := Landed(hash, s, steps, who, t);
    LastWrite(hash, s, steps, who, t, write, p);
    assert LandsOn(hash, s, steps, who, t, write, release, t.goal.target);
  }

  lemma {:induction false} QuietIsSafe(hash: Hash, s: State)
    requires Quiet(hash, s)
    ensures Safe(hash, s) && s.processes == map[]
  {
    hide SharedOk;
  }

  /** The last write, at its step of the run. */
  lemma {:induction false} LastWrite(hash: Hash, s: State, steps: seq<Step>, who: nat, t: Task, write: nat, p: Process)
    requires Injective(hash) && Safe(hash, s) && Turns(hash, s, steps, write, who, p, Releasing(t, false))
    ensures var now, later := StateAt(hash, s, steps, write).shared, StateAt(hash, s, steps, write + 1).shared;
      match t.goal
      case Restore(target) => later.refs == now.refs[t.cursor := target]
      case Switch(_) => p.Landing? && p.task == t && later.refs == now.refs[t.cursor := p.target]
      case CreateRef(_) => false
      case _ =>
        && (p.Advancing? || p.Comparing?) && p.task == t && t.cursor in now.refs && now.refs[t.cursor] == p.parent
        && (p.Advancing? ==> later.refs == now.refs[t.cursor := p.id] && SavedAs(now, t, p.parent, p.id)
                             && Changed(now, t, p.parent))
        && (p.Comparing? ==> later.refs == now.refs && t.goal.SaveIfChanged? && p.parent in now.store
                             && now.store[p.parent].root == t.tree)
  {
    hide Safe, Injective, Act, StateAt, SavedAs, Changed;
    SafeAt(hash, s, steps, write);
    WritesWhat(hash, StateAt(hash, s, steps, write), who, p, steps[write].listed, steps[write].pick, t);
  }

  /** The cursor's old tip, and the stored snapshot of the captured tree on top of it. */
  ghost predicate Advanced(hash: Hash, s: State, steps: seq<Step>, t: Task, write: nat, parent: Id, id: Id) {
    && write <= |steps| && Names(hash, s, steps, write, t.cursor, parent)
    && var store := StateAt(hash, s, steps, write).shared.store;
      && id in store && store[id] == Snapshot(t.tree, [parent], t.meta)
      && (t.goal.SaveIfChanged? ==> parent in store && store[parent].root != t.tree)
  }

  /** A finished unconditional save has advanced its cursor from the tip to a snapshot of its tree. */
  lemma {:induction false} SaveLands(hash: Hash, s: State, steps: seq<Step>, who: nat, t: Task)
    requires Injective(hash) && Quiet(hash, s) && t.goal.SaveAlways?
    requires Is(hash, s, steps, |steps|, who, Finished(t, true))
    ensures exists write: nat, release: nat, parent: Id, id: Id ::
      LandsOn(hash, s, steps, who, t, write, release, id) && Advanced(hash, s, steps, t, write, parent, id)
  {
    hide Safe, Injective, Turns, Stays, StateAt, LandsOn;
    QuietIsSafe(hash, s);
    var write, p, release := Landed(hash, s, steps, who, t);
    LastWrite(hash, s, steps, who, t, write, p);
    assert LandsOn(hash, s, steps, who, t, write, release, p.id);
    assert Advanced(hash, s, steps, t, write, p.parent, p.id);
  }

  /**
   * A finished changed-only save has done the same where the tip had another tree; where the tip had the captured tree,
   * every ref is left as it was.
   */
  lemma {:induction false} ChangedSaveLands(hash: Hash, s: State, steps: seq<Step>, who: nat, t: Task)
    requires Injective(hash) && Quiet(hash, s) && t.goal.SaveIfChanged?
    requires Is(hash, s, steps, |steps|, who, Finished(t, true))
    ensures exists write: nat, release: nat, parent: Id, id: Id ::
      && LandsOn(hash, s, steps, who, t, write, release, id)
      && (Advanced(hash, s, steps, t, write, parent, id) || Unchanged(hash, s, steps, t, write, id))
  {
    hide Safe, Injective, Turns, Stays, StateAt, LandsOn;
    QuietIsSafe(hash, s);
    var write, p, release := Landed(hash, s, steps, who, t);
    LastWrite(hash, s, steps, who, t, write, p);
    if p.Advancing? {
      assert LandsOn(hash, s, steps, who, t, write, release, p.id);
      assert Advanced(hash, s, steps, t, write, p.parent, p.id);
    } else {
      assert LandsOn(hash, s, steps, who, t, write, release, p.parent);
      assert Advanced(hash, s, steps, t, write, p.parent, p.parent) || Unchanged(hash, s, steps, t, write, p.parent);
    }
  }

  /** The tip has the captured tree, and the step leaves every ref as it was. */
  ghost predicate Unchanged(hash: Hash, s: State, steps: seq<Step>, t: Task, write: nat, tip: Id) {
    && write < |steps| && Names(hash, s, steps, write, t.cursor, tip)
    && var now := StateAt(hash, s, steps, write).shared;
      && tip in now.store && now.store[tip].root == t.tree
      && StateAt(hash, s, steps, write + 1).shared.refs == now.refs
  }

  /** A finished workspace switch has pointed its cursor at the branch's tip as it read it. */
  lemma {:induction false} SwitchLands(hash: Hash, s: State, steps: seq<Step>, who: nat, t: Task)
    requires Injective(hash) && Quiet(hash, s) && t.goal.Switch? && t.workspace.Some?
    requires Is(hash, s, steps, |steps|, who, Finished(t, true))
    ensures exists read: nat, write: nat, release: nat, tip: Id ::
      && read < write && Turns(hash, s, steps, read, who, Resuming(t), Jumping(t, tip))
      && Names(hash, s, steps, read, t.goal.branch, tip) && LandsOn(hash, s, steps, who, t, write, release, tip)
  {
    hide Safe, Injective, Stays, StateAt, LandsOn, Act;
    QuietIsSafe(hash, s);
    var write, p, release := Landed(hash, s, steps, who, t);
    LastWrite(hash, s, steps, who, t, write, p);
    var locked, q := CameFrom(hash, s, steps, write, who, p);
    SafeAt(hash, s, steps, locked);
    LandingFrom(hash, StateAt(hash, s, steps, locked), who, q, steps[locked].listed, steps[locked].pick, t, p.target);
    var read, r := CameFrom(hash, s, steps, locked, who, q);
    SafeAt(hash, s, steps, read);
    JumpingFrom(hash, StateAt(hash, s, steps, read), who, r, steps[read].listed, steps[read].pick, t, p.target);
    assert LandsOn(hash, s, steps, who, t, write, release, p.target);
  }

  lemma {:induction false} LandingFrom(hash: Hash, s: State, who: nat, p: Process, listed: set<Id>, pick: Id, t: Task,
                                       tip: Id)
    requires p != Landing(t, tip) && Act(hash, s.shared, who, p, listed, pick).1 == Landing(t, tip)
    ensures p == Jumping(t, tip)
  {
    hide Created, Put, CursorOf;
  }

  lemma {:induction false} JumpingFrom(hash: Hash, s: State, who: nat, p: Process, listed: set<Id>, pick: Id, t: Task,
                                       tip: Id)
    requires p != Jumping(t, tip) && Act(hash, s.shared, who, p, listed, pick).1 == Jumping(t, tip)
    ensures p == Resuming(t) && t.goal.Switch?
    ensures t.goal.branch in s.shared.refs && s.shared.refs[t.goal.branch] == tip
  {
    hide Created, Put, CursorOf;
  }

  /** A finished switch in the repository itself has pointed HEAD at the branch. */
  lemma {:induction false} SwitchMovesHead(hash: Hash, s: State, steps: seq<Step>, who: nat, t: Task)
    requires Injective(hash) && Quiet(hash, s) && t.goal.Switch? && t.workspace.None?
    requires Is(hash, s, steps, |steps|, who, Finished(t, true))
    ensures exists k: nat ::
      && Turns(hash, s, steps, k, who, Resuming(t), Finished(t, true))
      && StateAt(hash, s, steps, k + 1).shared == StateAt(hash, s, steps, k).shared.(head := t.goal.branch)
      && t.goal.branch in StateAt(hash, s, steps, k).shared.refs
  {
    hide Safe, Injective, Stays, StateAt, CursorOf;
    QuietIsSafe(hash, s);
    var k, p := CameFrom(hash, s, steps, |steps|, who, Finished(t, true));
    SafeAt(hash, s, steps, k);
    FinishedFrom(hash, StateAt(hash, s, steps, k), who, p, steps[k].listed, steps[k].pick, t);
    assert Turns(hash, s, steps, k, who, Resuming(t), Finished(t, true));
  }

  /** A finished creation has added the ref, which was not there, at the snapshot its cursor named when it was read. */
  lemma {:induction false} CreationNames(hash: Hash, s: State, steps: seq<Step>, who: nat, t: Task)
    requires Injective(hash) && Quiet(hash, s) && t.goal.CreateRef?
    requires Is(hash, s, steps, |steps|, who, Finished(t, true))
    ensures exists read: nat, k: nat, id: Id ::
      && read < k && Turns(hash, s, steps, read, who, Resuming(t), Naming(t, id))
      && Names(hash, s, steps, read, CursorOf(StateAt(hash, s, steps, read).shared, t.workspace), id)
      && Turns(hash, s, steps, k, who, Naming(t, id), Finished(t, true))
      && t.goal.name !in StateAt(hash, s, steps, k).shared.refs && Names(hash, s, steps, k + 1, t.goal.name, id)
  {
    hide Safe, Injective, Stays, StateAt, CursorOf, Act;
    QuietIsSafe(hash, s);
    var k, p := CameFrom(hash, s, steps, |steps|, who, Finished(t, true));
    SafeAt(hash, s, steps, k);
    FinishedFrom(hash, StateAt(hash, s, steps, k), who, p, steps[k].listed, steps[k].pick, t);
    NamingEnds(hash, StateAt(hash, s, steps, k).shared, who, t, p.id, steps[k].listed, steps[k].pick);
    var read, q := CameFrom(hash, s, steps, k, who, p);
    NamingFrom(hash, StateAt(hash, s, steps, read).shared, who, q, steps[read].listed, steps[read].pick, t, p.id);
    assert Names(hash, s, steps, read, CursorOf(StateAt(hash, s, steps, read).shared, t.workspace), p.id);
    assert Turns(hash, s, steps, k, who, Naming(t, p.id), Finished(t, true));
  }

  lemma {:induction false} NamingEnds(hash: Hash, s: Shared, who: nat, t: Task, id: Id, listed: set<Id>, pick: Id)
    requires t.goal.CreateRef? && Act(hash, s, who, Naming(t, id), listed, pick).1 == Finished(t, true)
    ensures t.goal.name !in s.refs && Act(hash, s, who, Naming(t, id), listed, pick).0.refs == s.refs[t.goal.name := id]
  {
  }

  lemma {:induction false} NamingFrom(hash: Hash, s: Shared, who: nat, p: Process, listed: set<Id>, pick: Id, t: Task,
                                      id: Id)
    requires p != Naming(t, id) && Act(hash, s, who, p, listed, pick).1 == Naming(t, id)
    ensures p == Resuming(t) && CursorOf(s, t.workspace) in s.refs && s.refs[CursorOf(s, t.workspace)] == id
  {
    hide Created, Put, CursorOf;
  }

  /** Only a creation can fail, and only where the name was taken when it came to it. */
  lemma {:induction false} FailsWhere(hash: Hash, s: State, steps: seq<Step>, who: nat, t: Task)
    requires Injective(hash) && Quiet(hash, s) && Is(hash, s, steps, |steps|, who, Finished(t, false))
    ensures t.goal.CreateRef?
    ensures exists k: nat, id: Id ::
      && Turns(hash, s, steps, k, who, Naming(t, id), Finished(t, false))
      && t.goal.name in StateAt(hash, s, steps, k).shared.refs
  {
    hide Safe, Injective, Stays, StateAt;
    QuietIsSafe(hash, s);
    var k, p := CameFrom(hash, s, steps, |steps|, who, Finished(t, false));
    SafeAt(hash, s, steps, k);
    FailedFrom(hash, StateAt(hash, s, steps, k), who, p, steps[k].listed, steps[k].pick, t);
    assert Turns(hash, s, steps, k, who, Naming(t, p.id), Finished(t, false));
  }

  lemma {:induction false} FailedFrom(hash: Hash, s: State, who: nat, p: Process, listed: set<Id>, pick: Id, t: Task)
    requires Safe(hash, s) && who in s.processes && s.processes[who] == p && p != Finished(t, false)
    requires Act(hash, s.shared, who, p, listed, pick).1 == Finished(t, false)
    ensures p.Naming? && p.task == t && t.goal.CreateRef? && t.goal.name in s.shared.refs
  {
    hide Grounded, TreeKept, Created, Put;
    assert ProcessOk(s.shared, who, p);
  }

  /**
   * An operation starts exactly where its workspace is there, a restore's target is stored, a switch's branch is there,
   * and a new ref's name is free; it works on its workspace, or else on the branch that HEAD names then.
   */
  lemma {:induction false} StartsExactly(hash: Hash, s: State, who: nat, goal: Goal, workspace: Option<Cursor>,
                                         tree: TreeId, meta: nat)
    requires who !in s.processes
    ensures var later, refs := After(hash, s, Start(who, goal, workspace, tree, meta)), s.shared.refs;
      && later.shared == s.shared
      && (who in later.processes <==>
            && (workspace.Some? ==> workspace.value in refs) && (goal.Restore? ==> goal.target in s.shared.store)
            && (goal.Switch? ==> goal.branch in refs) && (goal.CreateRef? ==> goal.name !in refs))
      && (who in later.processes ==>
            var cursor := if workspace.Some? then workspace.value else s.shared.head;
            later.processes == s.processes[who := Waiting(Task(goal, workspace, cursor, tree, meta))])
  {
  }

  /** A rebuild may always start. */
  lemma {:induction false} RebuildStarts(hash: Hash, s: State, who: nat)
    requires who !in s.processes
    ensures After(hash, s, StartRebuild(who)) == s.(processes := s.processes[who := RebuildWaiting])
  {
  }
}
