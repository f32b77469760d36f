/** Runs of whole-workspace operations and disk changes: when flags stay true and returned roots stay retrievable. */
module MaterializerRuns {
  import opened Wrappers
  import opened Workspace
  import opened Ascents
  import opened CacheRecords
  import opened CacheTruth
  import opened CaptureEffects
  import opened DirectoryWalks
  import opened Capture
  import opened HintedSettling
  import opened HintedCapture
  import opened HintList
  import opened HintedPlan
  import opened HintedTree
  import opened HintedChanges
  import opened Scanning
  import opened Comparison
  import opened MaterializedTrees
  import opened Materialization

  datatype State = State(disk: Node, cache: View, store: set<Id>)

  datatype Operation =
    | FullCapture
    | HintedCapture(hints: seq<Path>)
    | ScanAll
    | CompareWith(saved: Entries)
    | Materialize(target: Entries)
    | InvalidatePaths(paths: seq<Path>)
    | ChangeDisk(disk: Node)

  /** The workspace is a directory, and fingerprints are trustworthy. */
  ghost predicate Usable(s: State) {
    s.disk.Dir? && FilesSound(s.disk, s.cache)
  }

  /** The disk stays, and the cache is kept as every capture or scan keeps it. */
  ghost predicate Undisturbed(s: State, t: State) {
    t.disk == s.disk && Keeps(s.disk, s.cache, s.store, t.cache, t.store)
  }

  ghost predicate CaptureStep(o: Options, s: State, root: Option<Id>, t: State)
    requires s.disk.Dir?
  {
    && Undisturbed(s, t) && PutsClosed(s.cache, s.store, t.store)
    && (Scannable(o, s.disk.children) ==> root.Some?)
    && (root.Some? ==>
        && Scannable(o, s.disk.children) && root.value == Tree(Scan(o, s.disk.children))
        && Walked(true, o, s.cache, t.cache, [], s.disk)
        && t.store == s.store + PutsDirectory(o, s.cache, [], s.disk.children)
        && (FlagsOk(s.store, s.cache) ==> Retrievable(t.store, root.value)))
  }

  ghost predicate HintedStep(o: Options, s: State, hints: seq<Path>, root: Option<Id>, t: State)
    requires s.disk.Dir?
  {
    var plan := Plan(o, s.disk, s.cache, s.store, hints);
    && Undisturbed(s, t)
    && PutsAncestors(s.cache, s.store, t.store, RebuiltBy(o, s.disk, s.cache, s.store, Kept(o, hints)))
    && (plan.Some? ==> root == Some(plan.value.root) && t.store == plan.value.store)
    && (plan.None? && root.Some? ==>
        && Scannable(o, s.disk.children) && root.value == Tree(Scan(o, s.disk.children))
        && (FlagsOk(s.store, s.cache) ==> Retrievable(t.store, root.value)))
    && ((root.Some? && Covered(o, s.disk, s.cache, hints)
         && if plan.Some? then Settled(o, s.disk, s.cache, Elements(Kept(o, hints))) else Tidy(o, s.disk, s.cache)) ==>
        Settled(o, t.disk, t.cache, {}))
  }

  ghost predicate MaterializeStep(o: Options, s: State, target: Entries, t: State)
    requires s.disk.Dir? && t.disk.Dir?
  {
    var lay := LayDirectory(o, s.store, target, s.disk.children);
    && t.store == s.store
    && (lay.vouched ==> !FlagsOk(t.store, t.cache))
    && (!lay.vouched && FlagsOk(s.store, s.cache) ==> FlagsOk(t.store, t.cache))
    && (lay.done ==> Scannable(o, t.disk.children))
    && (lay.done ==> (Scan(o, t.disk.children) == target <==> Includable(o, target)))
    && (lay.done && Includable(o, target) ==>
        && PutsDirectory(o, t.cache, [], t.disk.children) == {}
        && (Settled(o, s.disk, s.cache, {}) ==> Settled(o, t.disk, t.cache, {})))
  }

  /** What one operation may do, with the root it returns if it is a capture that succeeds. */
  ghost predicate Step(o: Options, s: State, op: Operation, root: Option<Id>, t: State)
    requires s.disk.Dir?
  {
    && Usable(t)
    && match op
      case FullCapture => CaptureStep(o, s, root, t)
      case HintedCapture(hints) => HintedStep(o, s, hints, root, t)
      case ScanAll => Undisturbed(s, t) && t.store == s.store && root.None?
      case CompareWith(_) => Undisturbed(s, t) && t.store == s.store && root.None?
      case Materialize(target) => MaterializeStep(o, s, target, t) && root.None?
      case InvalidatePaths(paths) => t == s.(cache := WithoutAll(s.cache, paths)) && root.None?
      case ChangeDisk(disk) => t == s.(disk := disk) && root.None?
  }

  /** Every operation of a materializer is such a step. */
  method Perform(m: Materializer, disk: Node, op: Operation) returns (after: Node, root: Option<Id>)
    requires Usable(State(disk, m.cache, m.store))
    requires op.ChangeDisk? ==> Usable(State(op.disk, m.cache, m.store))
    modifies m
    ensures Step(m.options, State(disk, old(m.cache), old(m.store)), op, root, State(after, m.cache, m.store))
  {
    hide Tidy, FilesSound, Keeps, Scannable, Scan, Retrievable, Walked, PutsDirectory, TrustKeptBelow, FlagsOk, Plan,
      Covered, Settled, LayDirectory, Includable, Elements, Kept, MaterializedTrees.Matches, Fresh, Unscannable,
      AnyOrphan, Explained;
    after, root := disk, None;
    ghost var s := State(disk, m.cache, m.store);
    match op {
      case FullCapture =>
        var r := CaptureTree(m, disk);
        root := if r.Ok? then Some(r.value) else None;
        UndisturbedIsUsable(s, State(disk, m.cache, m.store));
      case HintedCapture(hints) =>
        var r := CaptureTreeWithHints(m, disk, hints);
        root := if r.Ok? then Some(r.value) else None;
        UndisturbedIsUsable(s, State(disk, m.cache, m.store));
      case ScanAll =>
        var _ := ScanTree(m, disk);
        UndisturbedIsUsable(s, State(disk, m.cache, m.store));
      case CompareWith(saved) =>
        var _ := CompareTree(m, disk, saved);
        UndisturbedIsUsable(s, State(disk, m.cache, m.store));
      case Materialize(target) =>
        var error;
        after, error := MaterializeTree(m, disk, target);
      case InvalidatePaths(paths) =>
        InvalidateAll(m, disk, paths);
        UndisturbedIsUsable(s, State(disk, m.cache, m.store));
      case ChangeDisk(changed) =>
        after := changed;
    }
  }

  /** Invalidating paths, one after the other. */
  function WithoutAll(v: View, paths: seq<Path>): (next: View)
    decreases |paths|
  {
    if paths == [] then v else WithoutAll(Without(v, paths[0]), paths[1..])
  }

  lemma {:induction false} WithoutAllKeeps(disk: Node, v: View, store: set<Id>, paths: seq<Path>)
    requires FilesSound(disk, v)
    ensures Keeps(disk, v, store, WithoutAll(v, paths), store)
    decreases |paths|
  {
    hide FilesSound, Keeps, Without;
    KeepsReflexive(disk, v, store);
    if paths != [] {
      var w := Without(v, paths[0]);
      KeepsInvalidation(disk, v, store, paths[0]);
      KeepsSound(disk, v, store, w, store);
      WithoutAllKeeps(disk, w, store, paths[1..]);
      KeepsJoins(disk, v, store, w, store, WithoutAll(w, paths[1..]), store);
    }
  }

  method InvalidateAll(m: Materializer, ghost disk: Node, paths: seq<Path>)
    requires FilesSound(disk, m.cache)
    modifies m`cache
    ensures m.cache == WithoutAll(old(m.cache), paths)
    ensures Keeps(disk, old(m.cache), m.store, m.cache, m.store)
  {
    hide FilesSound, Keeps, Without;
    WithoutAllKeeps(disk, m.cache, m.store, paths);
    var todo := paths;
    while todo != []
      invariant WithoutAll(m.cache, todo) == WithoutAll(old(m.cache), paths)
      decreases |todo|
    {
      m.cache := Without(m.cache, todo[0]);
      todo := todo[1..];
    }
  }

  lemma {:induction false} UndisturbedIsUsable(s: State, t: State)
    requires Usable(s) && Undisturbed(s, t)
    ensures Usable(t) && s.store <= t.store && (FlagsOk(s.store, s.cache) ==> FlagsOk(t.store, t.cache))
  {
  }

  datatype Event = Event(op: Operation, root: Option<Id>)

  /** A run: the states it passes through and what happened between them. */
  ghost predicate Run(o: Options, states: seq<State>, events: seq<Event>) {
    && |states| == |events| + 1 && (forall i :: 0 <= i < |states| ==> Usable(states[i]))
    && forall i :: 0 <= i < |events| ==> Happens(o, states[i], events[i], states[i + 1])
  }

  ghost predicate Happens(o: Options, s: State, e: Event, t: State) {
    s.disk.Dir? && Step(o, s, e.op, e.root, t)
  }

  ghost predicate True(s: State) {
    FlagsOk(s.store, s.cache)
  }

  /** Materialising vouches for a blob that is missing from the store because the file is already there. */
  ghost predicate Vouches(o: Options, s: State, op: Operation) {
    op.Materialize? && s.disk.Dir? && LayDirectory(o, s.store, op.target, s.disk.children).vouched
  }

  /** Vouching is the one thing that makes flags untrue, and it always does; the store never shrinks. */
  lemma {:induction false} StepFlags(o: Options, s: State, e: Event, t: State)
    requires Usable(s) && Happens(o, s, e, t)
    ensures s.store <= t.store
    ensures Vouches(o, s, e.op) ==> !True(t)
    ensures !Vouches(o, s, e.op) && True(s) ==> True(t)
  {
    hide FilesSound, Keeps, Scannable, Scan, Retrievable, Walked, PutsDirectory, FlagsOk, Plan, Covered, Settled,
      LayDirectory, Includable, Elements, Kept, WithoutAll, Tidy;
    match e.op {
      case Materialize(_) =>
      case InvalidatePaths(paths) =>
        WithoutAllKeeps(s.disk, s.cache, s.store, paths);
        UndisturbedIsUsable(s, t);
      case ChangeDisk(_) =>
      case _ =>
        UndisturbedIsUsable(s, t);
    }
  }

  /** Over any run from true flags: they are true throughout exactly when no materialisation vouched. */
  lemma {:induction false} FlagsOverRuns(o: Options, states: seq<State>, events: seq<Event>)
    requires Run(o, states, events) && True(states[0])
    ensures (forall i :: 0 <= i < |states| ==> True(states[i])) <==>
      (forall i :: 0 <= i < |events| ==> !Vouches(o, states[i], events[i].op))
  {
    hide Usable, Happens, True, Vouches;
    if forall i :: 0 <= i < |events| ==> !Vouches(o, states[i], events[i].op) {
      forall i: nat | i < |states| ensures True(states[i]) {
        TrueUpTo(o, states, events, i);
      }
    } else {
      var i :| 0 <= i < |events| && Vouches(o, states[i], events[i].op);
      StepFlags(o, states[i], events[i], states[i + 1]);
    }
  }

  lemma {:induction false} TrueUpTo(o: Options, states: seq<State>, events: seq<Event>, k: nat)
    requires Run(o, states, events) && True(states[0]) && k < |states|
    requires forall i :: 0 <= i < |events| ==> !Vouches(o, states[i], events[i].op)
    ensures True(states[k])
    decreases k
  {
    hide Usable, Happens, True, Vouches;
    if k > 0 {
      TrueUpTo(o, states, events, k - 1);
      StepFlags(o, states[k - 1], events[k - 1], states[k]);
    }
  }

  /** From true flags: a returned root is retrievable, or came from hints and is exactly when what they took over is. */
  lemma {:induction false} RootIsRetrievableWhen(o: Options, s: State, e: Event, t: State)
    requires Usable(s) && Happens(o, s, e, t) && True(s) && e.root.Some?
    ensures e.op.FullCapture? || e.op.HintedCapture?
    ensures e.op.FullCapture? ==> Retrievable(t.store, e.root.value)
    ensures e.op.HintedCapture? ==> (Retrievable(t.store, e.root.value) <==> Justified(o, s, e.op.hints))
  {
    hide FilesSound, Keeps, Scannable, Scan, Retrievable, Walked, PutsDirectory, FlagsOk, Plan, Covered, Settled,
      LayDirectory, Includable, Elements, Kept, TakeoverJustified, Tidy, PutsAncestors, RebuiltBy, PutsClosed;
    if e.op.HintedCapture? && Plan(o, s.disk, s.cache, s.store, e.op.hints).Some? {
      PlanIsRetrievable(o, s.disk, s.cache, s.store, e.op.hints);
    }
  }

  /** If hints alone give the answer, all that it takes over is retrievable in the store it leaves. */
  ghost predicate Justified(o: Options, s: State, hints: seq<Path>) {
    var plan := Plan(o, s.disk, s.cache, s.store, hints);
    plan.Some? ==> TakeoverJustified(o, s.cache, plan.value.store, hints)
  }

  ghost predicate RootKept(t: State, e: Event) {
    e.root.Some? ==> Retrievable(t.store, e.root.value)
  }

  ghost predicate AnswerJustified(o: Options, s: State, e: Event) {
    e.op.HintedCapture? ==> Justified(o, s, e.op.hints)
  }

  /**
   * Over any run from true flags in which no materialisation vouches: every root is retrievable when it is returned
   * exactly when every capture that answers from hints is justified.
   */
  lemma {:induction false} RootsOverRuns(o: Options, states: seq<State>, events: seq<Event>)
    requires Run(o, states, events) && True(states[0])
    requires forall i :: 0 <= i < |events| ==> !Vouches(o, states[i], events[i].op)
    ensures (forall i: nat :: i < |events| ==> RootKept(states[i + 1], events[i])) <==>
      (forall i: nat :: i < |events| ==> AnswerJustified(o, states[i], events[i]))
  {
    hide Usable, Step, True, Retrievable, Vouches, Plan, TakeoverJustified;
    forall i: nat | i < |events|
      ensures RootKept(states[i + 1], events[i]) <==> AnswerJustified(o, states[i], events[i])
    {
      TrueUpTo(o, states, events, i);
      assert Happens(o, states[i], events[i], states[i + 1]);
      if events[i].root.Some? {
        RootIsRetrievableWhen(o, states[i], events[i], states[i + 1]);
      }
      if events[i].op.HintedCapture? {
        AnswersWhenPlanned(o, states[i], events[i], states[i + 1]);
      }
    }
  }

  lemma {:induction false} AnswersWhenPlanned(o: Options, s: State, e: Event, t: State)
    requires Happens(o, s, e, t) && e.op.HintedCapture?
    ensures Plan(o, s.disk, s.cache, s.store, e.op.hints).Some? ==> e.root.Some?
  {
    hide Plan, Covered, Settled, Undisturbed, Usable, Retrievable, FlagsOk, Tidy, PutsAncestors, RebuiltBy;
  }

  ghost predicate Returned(events: seq<Event>, i: nat, root: Id) {
    exists j: nat :: j < i && j < |events| && events[j].root == Some(root)
  }

  /** Only retrievable trees, or roots that this run returned, are materialised; captures from hints are justified. */
  ghost predicate Careful(o: Options, states: seq<State>, events: seq<Event>, i: nat)
    requires i < |events| < |states|
  {
    && (events[i].op.Materialize? ==>
        || Retrievable(states[i].store, Tree(events[i].op.target))
        || Returned(events, i, Tree(events[i].op.target)))
    && (events[i].op.HintedCapture? ==> Justified(o, states[i], events[i].op.hints))
  }

  /** Up to a point of the run, flags are true and every returned root is retrievable. */
  ghost predicate GoodSoFar(states: seq<State>, events: seq<Event>, k: nat)
    requires k < |states| == |events| + 1
  {
    && True(states[k])
    && forall j: nat :: j < k && events[j].root.Some? ==> Retrievable(states[k].store, events[j].root.value)
  }

  lemma {:induction false} CarefulStep(o: Options, states: seq<State>, events: seq<Event>, k: nat)
    requires Run(o, states, events) && k < |events| && GoodSoFar(states, events, k) && Careful(o, states, events, k)
    ensures GoodSoFar(states, events, k + 1)
  {
    hide Usable, Step, True, LayDirectory, Retrievable, Vouches, Plan, Covered, TakeoverJustified;
    var s, e, t := states[k], events[k], states[k + 1];
    assert Happens(o, s, e, t);
    if e.op.Materialize? {
      if Returned(events, k, Tree(e.op.target)) {
        var j: nat :| j < k && j < |events| && events[j].root == Some(Tree(e.op.target));
        assert Retrievable(s.store, events[j].root.value);
      }
      NotVouched(o, s, e.op);
    } else {
      OnlyMaterializing(o, s, e.op);
    }
    StepFlags(o, s, e, t);
    if e.root.Some? {
      RootIsRetrievableWhen(o, s, e, t);
    }
    forall j: nat | j < k + 1 && events[j].root.Some? ensures Retrievable(t.store, events[j].root.value) {
      if j < k {
        RetrievableGrows(s.store, t.store, events[j].root.value);
      }
    }
  }

  lemma {:induction false} NotVouched(o: Options, s: State, op: Operation)
    requires op.Materialize? && Retrievable(s.store, Tree(op.target))
    ensures !Vouches(o, s, op)
  {
    hide LayDirectory, Retrievable;
    if s.disk.Dir? {
      RetrievableIsLaid(o, s.store, Tree(op.target), Some(s.disk));
    }
  }

  lemma {:induction false} OnlyMaterializing(o: Options, s: State, op: Operation)
    requires !op.Materialize?
    ensures !Vouches(o, s, op)
  {
  }

  /** Over any careful run from true flags, flags stay true and every root returned stays retrievable. */
  lemma {:induction false} NothingDangles(o: Options, states: seq<State>, events: seq<Event>, k: nat)
    requires Run(o, states, events) && True(states[0]) && k < |states|
    requires forall i: nat :: i < |events| ==> Careful(o, states, events, i)
    ensures GoodSoFar(states, events, k)
    decreases k
  {
    hide Usable, Happens, True, Careful;
    if k > 0 {
      NothingDangles(o, states, events, k - 1);
      var i: nat := k - 1;
      assert Careful(o, states, events, i);
      CarefulStep(o, states, events, k - 1);
    } else {
      assert True(states[0]);
    }
  }

  /**
   * The converse: once a tree that is not retrievable has been materialised, flags are untrue, and a full capture of
   * what is then on disk returns that very tree, still not retrievable.
   */
  lemma {:induction false} DanglingSpreads(o: Options, s: State, target: Entries, t: State, root: Id, u: State)
    requires Usable(s) && Happens(o, s, Event(Materialize(target), None), t)
    requires LayDirectory(o, s.store, target, s.disk.children).done && Includable(o, target)
    requires Happens(o, t, Event(FullCapture, Some(root)), u)
    ensures root == Tree(target) && u.store == s.store
    ensures Retrievable(u.store, root) <==> Retrievable(s.store, Tree(target))
    ensures !Retrievable(s.store, Tree(target)) ==> !True(t)
  {
    hide LayDirectory, Retrievable, Scannable, Scan, Includable, PutsDirectory, Walked, FlagsOk, Keeps, FilesSound,
      Settled;
    LaidIsRetrievable(o, s.store, Tree(target), Some(s.disk));
    assert Scan(o, t.disk.children) == target;
    assert s.store + {} == s.store;
  }

  /** A hinted capture that puts a rebuilt ancestor with an entry that is not stored. */
  ghost predicate Opens(o: Options, s: State, op: Operation, t: State) {
    && op.HintedCapture?
    && exists tree <- RebuiltBy(o, s.disk, s.cache, s.store, Kept(o, op.hints)) :: !Supported(t.store, tree)
  }

  /** From true flags, that is the one thing that leaves a stored tree without its children, and it always does. */
  lemma {:induction false} StepCloses(o: Options, s: State, e: Event, t: State)
    requires Usable(s) && Happens(o, s, e, t) && True(s) && Closed(s.store)
    ensures Closed(t.store) <==> !Opens(o, s, e.op, t)
  {
    hide FilesSound, Keeps, Scannable, Scan, Retrievable, Walked, PutsDirectory, FlagsOk, Plan, Covered, Settled,
      LayDirectory, Includable, Elements, Kept, TakeoverJustified, Tidy, RebuiltBy, Closed, Grounded, Supported,
      WithoutAll;
    match e.op {
      case FullCapture =>
        GroundedCloses(s.store, t.store, {});
      case HintedCapture(hints) =>
        GroundedCloses(s.store, t.store, RebuiltBy(o, s.disk, s.cache, s.store, Kept(o, hints)));
      case _ =>
    }
  }

  /**
   * Over any run from true flags and a store in which every tree's children are stored, in which no materialisation
   * vouches: the store stays so exactly when no hinted capture puts a rebuilt ancestor with an entry not stored.
   */
  lemma {:induction false} ClosedOverRuns(o: Options, states: seq<State>, events: seq<Event>)
    requires Run(o, states, events) && True(states[0]) && Closed(states[0].store)
    requires forall i :: 0 <= i < |events| ==> !Vouches(o, states[i], events[i].op)
    ensures (forall i: nat :: i < |states| ==> Closed(states[i].store)) <==>
      (forall i: nat :: i < |events| ==> !Opens(o, states[i], events[i].op, states[i + 1]))
  {
    hide Usable, Happens, True, Vouches, Closed, Opens;
    if forall i: nat :: i < |events| ==> !Opens(o, states[i], events[i].op, states[i + 1]) {
      forall i: nat | i < |states| ensures Closed(states[i].store) {
        ClosedUpTo(o, states, events, i);
      }
    }
    if forall i: nat :: i < |states| ==> Closed(states[i].store) {
      forall i: nat | i < |events| ensures !Opens(o, states[i], events[i].op, states[i + 1]) {
        TrueUpTo(o, states, events, i);
        StepCloses(o, states[i], events[i], states[i + 1]);
      }
    }
  }

  lemma {:induction false} ClosedUpTo(o: Options, states: seq<State>, events: seq<Event>, k: nat)
    requires Run(o, states, events) && True(states[0]) && Closed(states[0].store) && k < |states|
    requires forall i :: 0 <= i < |events| ==> !Vouches(o, states[i], events[i].op)
    requires forall i: nat :: i < |events| ==> !Opens(o, states[i], events[i].op, states[i + 1])
    ensures Closed(states[k].store)
    decreases k
  {
    hide Usable, Happens, True, Vouches, Closed, Opens;
    if k > 0 {
      var i: nat := k - 1;
      ClosedUpTo(o, states, events, i);
      TrueUpTo(o, states, events, i);
      StepCloses(o, states[i], events[i], states[i + 1]);
    }
  }

  /**
   * One hinted capture, after a capture of `base` and changes only at or below surviving hints: it returns the root of
   * a full walk exactly when the hints alone give no answer or no record that they consult is left over.
   */
  lemma {:induction false} HintedAgreesUnlessStale(o: Options, base: Node, s: State, hints: seq<Path>, root: Id,
                                                   t: State)
    requires Usable(s) && Happens(o, s, Event(HintedCapture(hints), Some(root)), t)
    requires base.Dir? && Scannable(o, base.children) && FreshBut(o, base, s.cache, Surviving(o, hints))
    requires ChangedOnlyAt(o, base, s.disk, Surviving(o, hints))
    ensures root == Tree(Scan(o, s.disk.children)) <==>
      Plan(o, s.disk, s.cache, s.store, hints).None? || NoStaleRecords(o, base, s.cache, Surviving(o, hints))
  {
    hide Plan, Scan, Scannable, FreshBut, ChangedOnlyAt, Surviving, NoStaleRecords, Covered, Settled, Tidy, FlagsOk,
      Retrievable, PutsAncestors, RebuiltBy, Kept, Elements, Keeps, FilesSound;
    if Plan(o, s.disk, s.cache, s.store, hints).Some? {
      AgreesUnlessStale(o, base, s.disk, s.store, s.cache, hints);
    }
  }
}
