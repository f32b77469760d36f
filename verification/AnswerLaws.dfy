/** When hints alone give an answer, and what they put, told of the records as they were before the capture. */
module AnswerLaws {
  import opened Wrappers
  import opened Workspace
  import opened Ascents
  import opened CacheRecords
  import opened HintList
  import opened HintedAccuracy
  import opened HintedRecords
  import opened HintedPlan
  import opened ClimbLaws

  /**
   * Hint `i` can be processed: every record above it is there, its parent's is stored or rebuilt by an earlier hint,
   * and what the disk has at it can be captured.
   */
  ghost predicate Goes(o: Options, disk: Node, d: Directories, hints: seq<Path>, i: nat)
    requires i < |hints|
  {
    && hints[i] != [] && (forall p: Path :: p < hints[i] ==> p in d)
    && (d[hints[i][..|hints[i]| - 1]].stored || ClearedBefore(hints, i))
    && !SightAt(o, disk, hints[i], hints[i][|hints[i]| - 1]).Unreadable?
  }

  ghost predicate ClearedBefore(hints: seq<Path>, i: nat)
    requires i < |hints| && hints[i] != []
  {
    exists j :: 0 <= j < i && hints[i][..|hints[i]| - 1] < hints[j]
  }

  /** The records with the hint's parent rebuilt, where the ancestor loop starts. */
  function Patched(o: Options, disk: Node, d: Directories, h: Path): (e: Directories)
    requires h != [] && h[..|h| - 1] in d
  {
    var parent, name := h[..|h| - 1], h[|h| - 1];
    (map p | p in d && !(h <= p) :: d[p])[
      parent := DirectoryRecord(Replace(d[parent].entries, name, SightAt(o, disk, h, name)), false)]
  }

  lemma {:induction false} ProcessedIsClimb(o: Options, disk: Node, d: Directories, store: set<Id>, h: Path)
    requires h != []
    ensures var parent, sight := h[..|h| - 1], SightAt(o, disk, h, h[|h| - 1]);
      if parent in d && d[parent].stored && !sight.Unreadable? then
        && Processed(o, disk, d, store, h) == Climb(Patched(o, disk, d, h), store + ContentsOf(sight), parent)
        && ProcessedTrees(o, disk, d, h) == ClimbTrees(Patched(o, disk, d, h), parent)
      else Processed(o, disk, d, store, h).None?
  {
    hide SightAt, Climb, ClimbTrees, Replace, ContentsOf;
    assert !(h <= h[..|h| - 1]);
  }

  /** Everything above the hint is known in the patched records exactly when it was. */
  lemma {:induction false} KnownAbove(o: Options, disk: Node, d: Directories, h: Path)
    requires h != [] && h[..|h| - 1] in d
    ensures KnownFrom(Patched(o, disk, d, h), h[..|h| - 1], 0) <==> forall p: Path :: p < h ==> p in d
  {
    hide SightAt, Replace;
    var parent, e := h[..|h| - 1], Patched(o, disk, d, h);
    forall p: Path | p < h ensures p in e <==> p in d {
      assert p <= parent;
    }
    if KnownFrom(e, parent, 0) {
      forall p: Path | p < h ensures p in d {
        assert p == parent[..|p|] && p in e;
      }
    }
    if forall p: Path :: p < h ==> p in d {
      forall j | 0 <= j <= |parent| ensures parent[..j] in e {
        assert parent[..j] < h;
      }
    }
  }

  /** After a hint, the records that other hints consult are there as before, and stored where they were or above it. */
  lemma {:induction false} AfterHint(o: Options, disk: Node, d: Directories, store: set<Id>, h: Path, p: Path)
    requires h != [] && Processed(o, disk, d, store, h).Some? && !(h <= p)
    ensures var e := Processed(o, disk, d, store, h).value.0;
      && (p in e <==> p in d)
      && (p in d ==> (e[p].stored <==> d[p].stored || p < h))
  {
    hide SightAt, Replace, Climb, ClimbTrees, ContentsOf, NewEntries;
    var parent, sight := h[..|h| - 1], SightAt(o, disk, h, h[|h| - 1]);
    ProcessedIsClimb(o, disk, d, store, h);
    var patched := Patched(o, disk, d, h);
    ClimbsExactly(patched, store + ContentsOf(sight), parent);
    KnownAbove(o, disk, d, h);
    var e := Climb(patched, store + ContentsOf(sight), parent).value.0;
    assert p < h <==> p <= parent;
    if p < h {
      assert p == parent[..|p|];
      assert Get(e, parent[..|p|]) == Some(DirectoryRecord(NewEntries(patched, parent, |p|), true));
    } else {
      assert Get(e, p) == Get(patched, p) == Get(d, p);
    }
  }

  lemma {:induction false} FirstGoes(o: Options, disk: Node, d: Directories, store: set<Id>, hints: seq<Path>)
    requires hints != [] && hints[0] != []
    ensures Processed(o, disk, d, store, hints[0]).Some? <==> Goes(o, disk, d, hints, 0)
  {
    hide SightAt, Climb, Patched, KnownFrom, ContentsOf, NewEntries;
    var h := hints[0];
    var parent, sight := h[..|h| - 1], SightAt(o, disk, h, h[|h| - 1]);
    assert parent < h;
    ProcessedIsClimb(o, disk, d, store, h);
    if parent in d {
      ClimbsExactly(Patched(o, disk, d, h), store + ContentsOf(sight), parent);
      KnownAbove(o, disk, d, h);
    }
  }

  /** What the rest of the hints need, after the first is processed and before. */
  lemma {:induction false} RestGoes(o: Options, disk: Node, d: Directories, store: set<Id>, hints: seq<Path>, i: nat)
    requires 0 < i < |hints| && hints[0] != [] && Apart(hints)
    requires Processed(o, disk, d, store, hints[0]).Some?
    ensures Goes(o, disk, Processed(o, disk, d, store, hints[0]).value.0, hints[1..], i - 1)
       <==> Goes(o, disk, d, hints, i)
  {
    hide SightAt, Processed;
    var h, e := hints[i], Processed(o, disk, d, store, hints[0]).value.0;
    assert hints[1..][i - 1] == h;
    if h != [] {
      var parent := h[..|h| - 1];
      forall p: Path | p < h ensures p in e <==> p in d {
        NotBelowFirst(hints, i, p);
        AfterHint(o, disk, d, store, hints[0], p);
      }
      assert parent < h;
      NotBelowFirst(hints, i, parent);
      AfterHint(o, disk, d, store, hints[0], parent);
      ClearedLater(hints, i);
    }
  }

  /** No hint lies above another. */
  ghost predicate Apart(hints: seq<Path>) {
    forall i, j :: 0 <= i < |hints| && 0 <= j < |hints| && hints[i] <= hints[j] ==>
      hints[i] == hints[j]
  }

  lemma {:induction false} NotBelowFirst(hints: seq<Path>, i: nat, p: Path)
    requires 0 < i < |hints| && Apart(hints) && p < hints[i]
    ensures !(hints[0] <= p)
  {
    Longer(hints[0], p, hints[i]);
  }

  lemma {:induction false} Longer(a: Path, p: Path, b: Path)
    ensures a <= p && p < b ==> a <= b && a != b
  {
  }

  lemma {:induction false} ClearedLater(hints: seq<Path>, i: nat)
    requires 0 < i < |hints| && hints[i] != []
    ensures hints[1..][i - 1] == hints[i]
    ensures ClearedBefore(hints, i) <==> hints[i][..|hints[i]| - 1] < hints[0] || ClearedBefore(hints[1..], i - 1)
  {
    var parent := hints[i][..|hints[i]| - 1];
    if ClearedBefore(hints, i) {
      var j :| 0 <= j < i && parent < hints[j];
      assert j > 0 ==> hints[1..][j - 1] == hints[j];
    }
    if ClearedBefore(hints[1..], i - 1) {
      var j :| 0 <= j < i - 1 && parent < hints[1..][j];
      assert hints[j + 1] == hints[1..][j];
    }
  }

  lemma {:induction false} TailIsApart(hints: seq<Path>)
    requires hints != [] && Apart(hints)
    ensures Apart(hints[1..])
  {
    forall i, j | 0 <= i < |hints[1..]| && 0 <= j < |hints[1..]| && hints[1..][i] <= hints[1..][j]
      ensures hints[1..][i] == hints[1..][j]
    {
      assert hints[i + 1] <= hints[j + 1];
    }
  }

  /** All the hints are processed exactly when each of them can be. */
  lemma {:induction false} AllGo(o: Options, disk: Node, d: Directories, store: set<Id>, hints: seq<Path>)
    requires Apart(hints)
    ensures ProcessedAll(o, disk, d, store, hints).Some?
       <==> forall i :: 0 <= i < |hints| ==> Goes(o, disk, d, hints, i)
    decreases |hints|
  {
    hide SightAt, Processed, Goes;
    if hints != [] {
      if hints[0] == [] {
        NeverRoot(o, disk, d, hints);
      } else {
        FirstGoes(o, disk, d, store, hints);
        var next := Processed(o, disk, d, store, hints[0]);
        if next.Some? {
          TailIsApart(hints);
          AllGo(o, disk, next.value.0, next.value.1, hints[1..]);
          forall i | 0 < i < |hints|
            ensures Goes(o, disk, next.value.0, hints[1..], i - 1) <==> Goes(o, disk, d, hints, i)
          {
            RestGoes(o, disk, d, store, hints, i);
          }
          forall i | 0 <= i < |hints[1..]|
            ensures Goes(o, disk, next.value.0, hints[1..], i) <==> Goes(o, disk, d, hints, i + 1)
          {
            assert Goes(o, disk, next.value.0, hints[1..], i + 1 - 1) <==> Goes(o, disk, d, hints, i + 1);
          }
        }
      }
    }
  }

  lemma {:induction false} NeverRoot(o: Options, disk: Node, d: Directories, hints: seq<Path>)
    requires hints != [] && hints[0] == []
    ensures !Goes(o, disk, d, hints, 0)
  {
  }

  /** What the disk has at some hint is among what it puts. */
  ghost predicate PutAt(o: Options, disk: Node, hints: seq<Path>, id: Id) {
    exists i :: 0 <= i < |hints| && hints[i] != []
                && id in ContentsOf(SightAt(o, disk, hints[i], hints[i][|hints[i]| - 1]))
  }

  /** Processing the hints puts what the disk has at them and the rebuilt trees above, and nothing else. */
  lemma {:induction false} AllPut(o: Options, disk: Node, d: Directories, store: set<Id>, hints: seq<Path>, id: Id)
    requires ProcessedAll(o, disk, d, store, hints).Some?
    ensures id in ProcessedAll(o, disk, d, store, hints).value.1
       <==> id in store || id in RebuiltAll(o, disk, d, store, hints) || PutAt(o, disk, hints, id)
    decreases |hints|
  {
    hide SightAt, Processed, ProcessedTrees, ContentsOf;
    if hints != [] {
      var next := Processed(o, disk, d, store, hints[0]).value;
      AllPut(o, disk, next.0, next.1, hints[1..], id);
      OnePuts(o, disk, d, store, hints[0]);
      PutAtFirst(o, disk, hints, id);
    }
  }

  lemma {:induction false} OnePuts(o: Options, disk: Node, d: Directories, store: set<Id>, h: Path)
    requires h != [] && Processed(o, disk, d, store, h).Some?
    ensures Processed(o, disk, d, store, h).value.1
         == store + ContentsOf(SightAt(o, disk, h, h[|h| - 1])) + ProcessedTrees(o, disk, d, h)
  {
    hide SightAt, Climb, ClimbTrees, Patched, ContentsOf, KnownFrom, NewEntries, Processed, ProcessedTrees;
    var parent, sight := h[..|h| - 1], SightAt(o, disk, h, h[|h| - 1]);
    ProcessedIsClimb(o, disk, d, store, h);
    ClimbsExactly(Patched(o, disk, d, h), store + ContentsOf(sight), parent);
  }

  lemma {:induction false} PutAtFirst(o: Options, disk: Node, hints: seq<Path>, id: Id)
    requires hints != [] && hints[0] != []
    ensures PutAt(o, disk, hints, id) <==>
      id in ContentsOf(SightAt(o, disk, hints[0], hints[0][|hints[0]| - 1])) || PutAt(o, disk, hints[1..], id)
  {
    hide SightAt, ContentsOf;
    if PutAt(o, disk, hints, id) {
      var i :| 0 <= i < |hints| && hints[i] != []
               && id in ContentsOf(SightAt(o, disk, hints[i], hints[i][|hints[i]| - 1]));
      assert i > 0 ==> hints[1..][i - 1] == hints[i];
    }
    if PutAt(o, disk, hints[1..], id) {
      var i :| 0 <= i < |hints[1..]| && hints[1..][i] != []
               && id in ContentsOf(SightAt(o, disk, hints[1..][i], hints[1..][i][|hints[1..][i]| - 1]));
      assert hints[i + 1] == hints[1..][i];
    }
  }

  /** Compacted hints keep apart. */
  lemma {:induction false} KeptIsApart(o: Options, hints: seq<Path>)
    requires [] !in Elements(Kept(o, hints))
    ensures Apart(Kept(o, hints))
  {
    hide Kept, Surviving, AllRepresented;
    var kept := Kept(o, hints);
    KeptIsCompacted(o, hints);
    assert Elements(kept) - {[]} == Elements(kept);
    forall i, j | 0 <= i < |kept| && 0 <= j < |kept| && kept[i] <= kept[j] ensures kept[i] == kept[j] {
      ElementsAt(kept, i);
      ElementsAt(kept, j);
    }
  }

  /**
   * For every cache, store, disk and hints: the hints alone answer exactly when there are hints, the root's record is
   * stored, and each kept hint can be processed in its turn.
   */
  lemma {:induction false} AnswersExactly(o: Options, disk: Node, v: View, store: set<Id>, hints: seq<Path>)
    ensures Plan(o, disk, v, store, hints).Some? <==>
      && hints != [] && [] in v.directories && v.directories[[]].stored
      && forall i :: 0 <= i < |Kept(o, hints)| ==> Goes(o, disk, v.directories, Kept(o, hints), i)
  {
    hide Kept, Goes, Processed, Elements;
    var kept := Kept(o, hints);
    if [] in Elements(kept) {
      RootIsAlone(o, hints);
      NeverRoot(o, disk, v.directories, kept);
      assert !Goes(o, disk, v.directories, kept, 0);
    } else {
      KeptIsApart(o, hints);
      AllGo(o, disk, v.directories, store, kept);
      if hints != [] && RootStored(v.directories) && ProcessedAll(o, disk, v.directories, store, kept).Some? {
        RootStays(o, disk, v.directories, store, kept);
      }
    }
  }

  lemma {:induction false} RootIsAlone(o: Options, hints: seq<Path>)
    requires [] in Elements(Kept(o, hints))
    ensures Kept(o, hints) != [] && Kept(o, hints)[0] == []
  {
    hide Kept;
    KeptIsCompacted(o, hints);
  }

  lemma {:induction false} RootStays(o: Options, disk: Node, d: Directories, store: set<Id>, hints: seq<Path>)
    requires [] in d && ProcessedAll(o, disk, d, store, hints).Some?
    ensures [] in ProcessedAll(o, disk, d, store, hints).value.0
    decreases |hints|
  {
    hide Processed;
    if hints != [] {
      var next := Processed(o, disk, d, store, hints[0]).value;
      assert !(hints[0] <= []);
      AfterHint(o, disk, d, store, hints[0], []);
      RootStays(o, disk, next.0, next.1, hints[1..]);
    }
  }

  /**
   * An answer from hints has put what the disk has at the kept hints and the rebuilt trees above them, and nothing
   * else; without a stored root, no tree is rebuilt.
   */
  lemma {:induction false} AnswerPuts(o: Options, disk: Node, v: View, store: set<Id>, hints: seq<Path>, id: Id)
    ensures Plan(o, disk, v, store, hints).Some? ==>
      (id in Plan(o, disk, v, store, hints).value.store <==>
         id in store || id in RebuiltBy(o, disk, v, store, Kept(o, hints)) || PutAt(o, disk, Kept(o, hints), id))
    ensures !([] in v.directories && v.directories[[]].stored) ==>
      RebuiltBy(o, disk, v, store, Kept(o, hints)) == {}
  {
    hide Kept, SightAt, ContentsOf, Processed, ProcessedTrees;
    if Plan(o, disk, v, store, hints).Some? {
      AllPut(o, disk, v.directories, store, Kept(o, hints), id);
    }
  }
}
