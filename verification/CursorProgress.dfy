/** No lock is leaked and no operation is stuck, under any interleaving. */
module CursorProgress {
  import opened Wrappers
  import opened SnapshotGraph
  import opened CursorProtocol
  import opened CursorSafety
  import opened SnapshotIndex

  predicate HoldsIndexLock(p: Process) {
    p.RebuildHolding? || p.RebuildListing? || p.RebuildWriting?
  }

  /** Every lock is held by a process that is between taking and releasing it. */
  ghost predicate LocksOwned(s: State) {
    && (forall c <- s.shared.locks :: OwnsLock(s, s.shared.locks[c], c))
    && (s.shared.indexLock.Some? ==>
          s.shared.indexLock.value in s.processes && HoldsIndexLock(s.processes[s.shared.indexLock.value]))
  }

  ghost predicate OwnsLock(s: State, who: nat, c: Cursor) {
    who in s.processes && HoldsLock(s.processes[who]) && s.processes[who].task.cursor == c
  }

  /**
   * What a rebuild read is stored, the index lock is its own while it works and the index is not yet complete, and when
   * it is done the index is.
   */
  ghost predicate RebuildSane(s: Shared, who: nat, p: Process) {
    && (p.RebuildListing? ==> p.start <= s.store.Keys)
    && (HoldsIndexLock(p) ==> s.indexLock == Some(who))
    && (p.RebuildListing? || p.RebuildWriting? ==> !s.complete)
    && (p.RebuildDone? ==> s.complete)
  }

  ghost predicate Tidy(hash: Hash, s: State) {
    && Safe(hash, s) && LocksOwned(s)
    && forall who <- s.processes :: RebuildSane(s.shared, who, s.processes[who])
  }

  /** A process that has a lock after its step is between taking and releasing it. */
  lemma {:induction false} ActOwnsLocks(hash: Hash, s: Shared, who: nat, p: Process, listed: set<Id>, pick: Id,
                                        c: Cursor)
    requires ProcessOk(s, who, p)
    requires c in s.locks && s.locks[c] == who ==> HoldsLock(p) && p.task.cursor == c
    requires c in Act(hash, s, who, p, listed, pick).0.locks && Act(hash, s, who, p, listed, pick).0.locks[c] == who
    ensures var q := Act(hash, s, who, p, listed, pick).1; HoldsLock(q) && q.task.cursor == c
  {
    hide TaskOk, TipIs, Changed, SavedAs, TreeKept, Put, Created, CursorOf;
    if p.Putting? {
      PutKeepsLocks(hash, s, Created(p.task, p.parent));
    }
  }

  /** It takes no lock for another. */
  lemma {:induction false} ActTakesForItself(hash: Hash, s: Shared, who: nat, p: Process, listed: set<Id>, pick: Id,
                                             c: Cursor)
    requires c in Act(hash, s, who, p, listed, pick).0.locks && Act(hash, s, who, p, listed, pick).0.locks[c] != who
    ensures c in s.locks && s.locks[c] == Act(hash, s, who, p, listed, pick).0.locks[c]
  {
    hide Put, Created, CursorOf, Saved;
    if p.Putting? {
      PutKeepsLocks(hash, s, Created(p.task, p.parent));
    }
  }

  lemma {:induction false} ActOwnsIndexLock(hash: Hash, s: Shared, who: nat, p: Process, listed: set<Id>, pick: Id)
    requires s.indexLock == Some(who) ==> HoldsIndexLock(p)
    ensures var (later, q) := Act(hash, s, who, p, listed, pick);
      && (later.indexLock == Some(who) ==> HoldsIndexLock(q))
      && (later.indexLock.Some? && later.indexLock != Some(who) ==> s.indexLock == later.indexLock)
  {
    hide Put, Created, CursorOf, Saved;
    if p.Putting? {
      PutKeepsLocks(hash, s, Created(p.task, p.parent));
    }
  }

  /** A step keeps its own rebuild in order. */
  lemma {:induction false} ActStaysSane(hash: Hash, s: Shared, who: nat, p: Process, listed: set<Id>, pick: Id)
    requires RebuildSane(s, who, p)
    ensures var (later, q) := Act(hash, s, who, p, listed, pick); RebuildSane(later, who, q)
  {
    hide Created, Put, CursorOf;
    if p.Putting? {
      PutKeepsIndex(hash, s, Created(p.task, p.parent));
      PutKeepsLocks(hash, s, Created(p.task, p.parent));
    }
  }

  /** It leaves the index complete once it is, and lock and marker to the other that has the lock. */
  lemma {:induction false} ActLeavesRebuilds(hash: Hash, s: Shared, who: nat, p: Process, listed: set<Id>, pick: Id,
                                             other: nat)
    requires RebuildSane(s, who, p) && other != who
    ensures var later := Act(hash, s, who, p, listed, pick).0;
      && (s.complete ==> later.complete)
      && (s.indexLock == Some(other) ==> later.indexLock == Some(other) && later.complete == s.complete)
  {
    hide Saved, Created, Put, CursorOf;
    if p.Putting? {
      PutKeepsIndex(hash, s, Created(p.task, p.parent));
      PutKeepsLocks(hash, s, Created(p.task, p.parent));
    }
  }

  lemma {:induction false} PutKeepsLocks(hash: Hash, s: Shared, snapshot: Snapshot)
    ensures Put(hash, s, snapshot).indexLock == s.indexLock && Put(hash, s, snapshot).locks == s.locks
  {
  }

  lemma {:induction false} StepStaysTidy(hash: Hash, s: State, step: Step)
    requires Injective(hash) && Tidy(hash, s)
    ensures Tidy(hash, After(hash, s, step))
  {
    hide SharedOk, ProcessOk, Act, Injective, CanStart, CursorOf, RebuildSane;
    StepIsSafe(hash, s, step);
    var later := After(hash, s, step);
    if step.Go? && step.who in s.processes {
      var who, p := step.who, s.processes[step.who];
      assert ProcessOk(s.shared, who, p) && RebuildSane(s.shared, who, p);
      StepOwns(hash, s, step);
      forall other <- later.processes ensures RebuildSane(later.shared, other, later.processes[other]) {
        if other == who {
          ActStaysSane(hash, s.shared, who, p, step.listed, step.pick);
        } else {
          ActLeavesRebuilds(hash, s.shared, who, p, step.listed, step.pick, other);
          ActGrowsStore(hash, s.shared, who, p, step.listed, step.pick);
          OthersStaySane(s.shared, later.shared, other, s.processes[other]);
        }
      }
    } else if later != s {
      StartStaysTidy(hash, s, step);
    }
  }

  lemma {:induction false} StepOwns(hash: Hash, s: State, step: Step)
    requires LocksOwned(s) && step.Go? && step.who in s.processes
    requires ProcessOk(s.shared, step.who, s.processes[step.who])
    ensures LocksOwned(After(hash, s, step))
  {
    hide ProcessOk, Act;
    var later, who, p := After(hash, s, step), step.who, s.processes[step.who];
    forall c <- later.shared.locks ensures OwnsLock(later, later.shared.locks[c], c) {
      assert c in s.shared.locks ==> OwnsLock(s, s.shared.locks[c], c);
      if later.shared.locks[c] == who {
        ActOwnsLocks(hash, s.shared, who, p, step.listed, step.pick, c);
      } else {
        ActTakesForItself(hash, s.shared, who, p, step.listed, step.pick, c);
      }
    }
    ActOwnsIndexLock(hash, s.shared, who, p, step.listed, step.pick);
  }

  lemma {:induction false} OthersStaySane(s: Shared, later: Shared, other: nat, p: Process)
    requires RebuildSane(s, other, p) && StoreGrows(s.store, later.store) && (s.complete ==> later.complete)
    requires s.indexLock == Some(other) ==> later.indexLock == Some(other) && later.complete == s.complete
    ensures RebuildSane(later, other, p)
  {
  }

  lemma {:induction false} StartStaysTidy(hash: Hash, s: State, step: Step)
    requires LocksOwned(s) && (forall who <- s.processes :: RebuildSane(s.shared, who, s.processes[who]))
    requires !step.Go?
    ensures var later := After(hash, s, step);
      LocksOwned(later) && forall who <- later.processes :: RebuildSane(later.shared, who, later.processes[who])
  {
    hide CanStart, CursorOf;
    var later := After(hash, s, step);
    forall c: Cursor | c in later.shared.locks ensures OwnsLock(later, later.shared.locks[c], c) {
      assert OwnsLock(s, s.shared.locks[c], c);
    }
  }

  /** A repository with no operation under way and no lock left behind. */
  ghost predicate Idle(hash: Hash, s: State) {
    Quiet(hash, s) && s.shared.locks == map[] && s.shared.indexLock.None?
  }

  lemma {:induction false} RunStaysTidy(hash: Hash, s: State, steps: seq<Step>)
    requires Injective(hash) && Tidy(hash, s)
    ensures Tidy(hash, Run(hash, s, steps))
    decreases |steps|
  {
    hide Tidy, After, Injective;
    if steps != [] {
      StepStaysTidy(hash, s, steps[0]);
      RunStaysTidy(hash, After(hash, s, steps[0]), steps[1..]);
    }
  }

  lemma {:induction false} IdleIsTidy(hash: Hash, s: State)
    requires Idle(hash, s)
    ensures Tidy(hash, s)
  {
    hide SharedOk;
  }

  /** In every state that any run reaches: each lock belongs to a process that is still to release it. */
  lemma {:induction false} NoLockIsLeaked(hash: Hash, s: State, steps: seq<Step>, c: Cursor)
    requires Injective(hash) && Idle(hash, s)
    ensures var end := Run(hash, s, steps);
      && (c in end.shared.locks ==> OwnsLock(end, end.shared.locks[c], c))
      && (end.shared.indexLock.Some? ==>
            end.shared.indexLock.value in end.processes
            && HoldsIndexLock(end.processes[end.shared.indexLock.value]))
  {
    hide Run, Safe, RebuildSane, Injective;
    IdleIsTidy(hash, s);
    RunStaysTidy(hash, s, steps);
  }

  /** A rebuild that is done has left the index marked complete. */
  lemma {:induction false} RebuildCompletes(hash: Hash, s: State, steps: seq<Step>, who: nat)
    requires Injective(hash) && Idle(hash, s)
    requires who in Run(hash, s, steps).processes && Run(hash, s, steps).processes[who].RebuildDone?
    ensures Run(hash, s, steps).shared.complete
  {
    hide Run, Safe, Injective, LocksOwned;
    IdleIsTidy(hash, s);
    RunStaysTidy(hash, s, steps);
    assert RebuildSane(Run(hash, s, steps).shared, who, Run(hash, s, steps).processes[who]);
  }

  /** In every reachable state, no rebuild is at work once the index is complete, and at most one ever is. */
  lemma {:induction false} OneRebuild(hash: Hash, s: State, steps: seq<Step>, who: nat, other: nat)
    requires Injective(hash) && Idle(hash, s) && who in Run(hash, s, steps).processes
    requires var p := Run(hash, s, steps).processes[who]; p.RebuildListing? || p.RebuildWriting?
    ensures !Run(hash, s, steps).shared.complete
    ensures other in Run(hash, s, steps).processes && HoldsIndexLock(Run(hash, s, steps).processes[other]) ==>
      other == who
  {
    hide Run, Safe, Injective, LocksOwned;
    IdleIsTidy(hash, s);
    RunStaysTidy(hash, s, steps);
    var end := Run(hash, s, steps);
    assert RebuildSane(end.shared, who, end.processes[who]);
    assert other in end.processes ==> RebuildSane(end.shared, other, end.processes[other]);
  }

  /** The process waits for a lock that another holds. */
  predicate Waits(s: Shared, p: Process) {
    || ((p.Waiting? || p.Jumping?) && p.task.cursor in s.locks)
    || (p.RebuildWaiting? && !s.complete && s.indexLock.Some?)
  }

  predicate IsOver(p: Process) {
    p.Finished? || p.RebuildDone?
  }

  /** In every reachable state, a process that is neither over nor waiting for a lock can go on. */
  lemma {:induction false} NoneIsStuck(hash: Hash, s: State, steps: seq<Step>, who: nat)
    requires Injective(hash) && Idle(hash, s) && who in Run(hash, s, steps).processes
    requires var end := Run(hash, s, steps); !IsOver(end.processes[who]) && !Waits(end.shared, end.processes[who])
    ensures exists listed: set<Id>, pick: Id ::
      After(hash, Run(hash, s, steps), Go(who, listed, pick)).processes[who] != Run(hash, s, steps).processes[who]
  {
    hide Run, Safe, Injective, LocksOwned, Act;
    IdleIsTidy(hash, s);
    RunStaysTidy(hash, s, steps);
    var end := Run(hash, s, steps);
    var p := end.processes[who];
    var pick :| p.RebuildWriting? && p.todo != {} ==> pick in p.todo;
    assert ProcessOk(end.shared, who, p) by { SafeProcess(hash, end, who); }
    GoesOnFrom(hash, end.shared, who, p, end.shared.store.Keys, pick);
    assert After(hash, end, Go(who, end.shared.store.Keys, pick)).processes[who] != p;
  }

  lemma {:induction false} SafeProcess(hash: Hash, s: State, who: nat)
    requires Safe(hash, s) && who in s.processes
    ensures ProcessOk(s.shared, who, s.processes[who])
  {
  }

  lemma {:induction false} GoesOnFrom(hash: Hash, s: Shared, who: nat, p: Process, listed: set<Id>, pick: Id)
    requires ProcessOk(s, who, p) && RebuildSane(s, who, p) && !IsOver(p) && !Waits(s, p)
    requires listed == s.store.Keys && (p.RebuildWriting? && p.todo != {} ==> pick in p.todo)
    ensures Act(hash, s, who, p, listed, pick).1 != p
  {
    hide TreeKept, Created, Put, CursorOf;
  }
}
