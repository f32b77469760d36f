# Era, modelled and proved in Dafny

Era is a content-addressed version control system. This project models its six hardest parts and proves what they
promise:

1. **Line merge** (`LongestIncreasing`, `CommonSubsequence`, `Matching`, `Patience`, `PatienceSearch`, `EditScript`,
   `ConflictGroup`, `LineText`, `MergeWalk`, `MergeChunks`, `MergeHunks`, `MergeFile`, `MergeLines`; `PatienceLaws`,
   `MergeLaws` and `MergeLocality` say what comes out, of the files and the outcome alone): patience matching, edit
   regions and the two-cursor three-way walk, down to the bytes of every hunk.
2. **Capture, hinted capture, comparison, materialisation and the watch loop** (`Workspace`, `CacheTruth`,
   `CaptureEffects`, `DirectoryWalks`, `Capture`, `HintedAccuracy`, `HintedRecords`, `ClimbLaws`, `HintedWeave`,
   `HintedSettling`, `HintedCapture`, `HintList`, `HintedPlan`, `AnswerLaws`, `HintedTree`, `Glimpses`, `HintedChanges`,
   `Scanning`, `TreeChanges`, `ChangeLists`, `Comparison`, `MaterializedTrees`, `DiskLaws`, `Materialization`,
   `MaterializerRuns`, `WatchRuns`, and the failing runs in `DanglingExample` and `HintExamples`).
3. **The write-back capture cache** (`CacheRecords`, `RecordHistories`, `CacheKeys`, `CacheLayers`, `CaptureCaching`).
4. **The object store with blob deltas** (`BlobDelta`, `BlobReading`, `BlobWriters`, `BlobLaws`).
5. **The cursor and index protocol of a repository** (`SnapshotGraph`, `CursorProtocol`, `CursorSafety`, `CursorRuns`,
   `SnapshotIndex`, `CursorOutcomes`, `CursorProgress`).
6. **Canonical codecs and the timeline** (`ByteFields`, `TreeCodec`, `TreeConstruction`, `TreeRefusals`, `SnapshotCodec`,
   `SnapshotRefusals`, `CodecLayout`, `TimelineForest`, `TimelineRendering`, `TimelineLaws`, `TimelineOrder`,
   `TimelinePrinting`).

`Wrappers`, `Numbers`, `Bytes`, `Seqs`, `Sorting`, `Lexicographic` and `Ascents` hold shared vocabulary.

`dafny verify dfyconfig.toml` checks the whole project.

## How the model is laid out

Each loop of the source is a method with the source's own loop; its postcondition equates the result with a function
or predicate on the inputs, and lemmas prove what is promised about that function. Objects that are updated in place
are classes (`CacheTruth.Materializer`, `CaptureCaching.CaptureCache`). Concurrent code is a function from a state and a
step to the next state; its theorems quantify over every list of steps, so over every interleaving. Runs of whole
operations on a materializer are lists of states related by `MaterializerRuns.Step`, which every operation meets
(`MaterializerRuns.Perform`); failing runs are methods that call the operations themselves.

What is assumed, and where it shows:

- **Hashes.** In the object store the hash is any function that does not collide on the byte strings that writers have
  hashed (`BlobWriters.CollisionFree`); in the repository it is any injective function on snapshots. In the workspace an
  id is the content itself together with its entry kind (`Workspace.Id`), which says the same without naming a hash.
- **The disk** is a finite tree that changes between operations, never during one. A new file gets an arbitrary
  fingerprint. `CacheTruth.FilesSound` states what the source trusts: a cached record whose fingerprint matches the file
  at its path has the file's content. Nothing is assumed about `stored` flags.
- **Names** are byte strings; a cache path is made of non-empty segments without a slash.
- **UTF-8** is an arbitrary predicate that the codecs take as a parameter.
- **Locks** are mutexes; linking, renaming and listing files are single steps. A step that cannot be taken changes
  nothing, and a process may stop at any point.

## What turned out to be false, and when it is true

- *A root returned by a hinted capture is wholly retrievable.* Not always: `rebuild_cached_ancestors` puts the tree of
  an ancestor whose record is not stored without looking at its entries, and after a comparison that was cut short such
  a record can name content that was hashed and never put. `DanglingExample.DanglingRun` is such a run, from an empty
  cache and store. When it is true: `HintedPlan.Plan` computes, from the cache, the store, the disk and the hints before
  the call, whether the hints alone give the answer, the root and the store afterwards. For every cache, store, disk and
  hints, that root is retrievable exactly when what is taken over unseen is retrievable in that computed store
  (`HintedPlan.PlanIsRetrievable`), and `HintedTree.CaptureTreeWithHints` proves the computation right. Otherwise a full
  walk follows.
- *A `stored` flag names an object in the store, in every reachable state.* Not always, and so not even a full capture's
  root is always retrievable: `materialize_blob` records `stored` for a file that already has the target's content
  without looking in the store, and later captures trust the flag. `DanglingExample.DanglingRun` ends this way. When it
  is true: over any run of captures, hinted captures, scans, comparisons, materialisations, invalidations and disk
  changes, flags are true throughout exactly when no materialisation vouches for a missing blob
  (`MaterializerRuns.FlagsOverRuns`, `MaterializedTrees.LayEntry`); a materialisation that succeeds vouches exactly when
  its target is not retrievable (`MaterializedTrees.LaidIsRetrievable`). Then full captures return retrievable roots,
  and all captures do exactly when those answered from hints are justified (`MaterializerRuns.RootsOverRuns`). A run
  that materialises only retrievable trees or roots it returned itself, and whose hinted captures are justified, never
  leaves anything dangling (`MaterializerRuns.NothingDangles`).
- *Every stored tree's children are stored.* Not always, for the same reason. When it is true: over any run without
  vouching, the store stays so exactly when no hinted capture puts a rebuilt ancestor with an entry that is not stored,
  whether or not that capture then succeeds (`MaterializerRuns.ClosedOverRuns`).
- *Hinted capture agrees with a full walk when changes are hinted.* Not always: a full capture never drops the record of
  a directory that is gone, and a hint below that directory can bring it back (`HintExamples.StaleRun`). When it is
  true: for every cache, an answer from hints is the full walk's exactly when the hints cover every difference between
  the consulted records and the disk (`HintedPlan.RightExactlyWhenCovered`). After a capture and changes at surviving
  hints, a hinted capture agrees exactly when the hints alone give no answer, so that a full walk is made
  (`HintExamples.StaleRecordMayNotMatter`), or no record that they consult is left over
  (`HintedChanges.AgreesUnlessStale`, `MaterializerRuns.HintedAgreesUnlessStale`). Left-over records are neither dropped
  nor added by a full walk (`HintedSettling.WalkKeepsStale`), removed by invalidating their path, and never added by an
  answer from hints. The watch loop invalidates what its events report, so it is right whenever they report every change
  at paths that survive (`WatchRuns.WatchLoop`).
- *Hints cover every change.* Not always: `normalize_hints` drops a path with an excluded segment even if it names a
  plain file, while a full walk skips only excluded directories (`HintExamples.ExcludedFileRun`). When it is true:
  changes at the hints are changes at the surviving ones exactly when no dropped hint ends in an excluded name at which
  something visible changed (`HintedChanges.SurvivingHintsSuffice`).
- *Materialise, then scan, returns the target.* Exactly when no name in the target is one that a scan skips
  (`MaterializedTrees.ScanOfMaterialized`); `HintExamples.ExcludedTargetRun` is a target with such a name.

## Model

| member | source | states |
|---|---|---|
| LongestIncreasing.LongestRunIsMaximal | crates/merge/src/lib.rs:733-761 | the run read off the tails and predecessors strictly increases on the side, and no strictly increasing run of the anchors is longer |
| LongestIncreasing.PlaceDominates | crates/merge/src/lib.rs:737-750 | placing one anchor keeps every pile top at most as large as the end of any run of that length |
| LongestIncreasing.LongestIncreasingBySide | crates/merge/src/lib.rs:733-761 | the loops return exactly the anchors of that longest run |
| LongestIncreasing.FollowLinks | crates/merge/src/lib.rs:753-761 | walking the predecessor links back and reversing yields the run ending at the last tail |
| CommonSubsequence.LcsLengthBounds | crates/merge/src/lib.rs:784-796 | no common subsequence of the two ranges is longer than the table's entry |
| CommonSubsequence.LcsWalkIsLongest | crates/merge/src/lib.rs:798-813 | the greedy walk emits a common subsequence of exactly that length |
| CommonSubsequence.FillTable | crates/merge/src/lib.rs:784-796 | every cell of the flat table holds the true longest common subsequence length of the two suffixes |
| CommonSubsequence.CollectLcsMatches | crates/merge/src/lib.rs:763-813 | appends the walk's matches, or nothing beyond the cell limit |
| Patience.AnchorsFromExact | crates/merge/src/lib.rs:692-717 | the anchors are exactly the pairs of equal lines that occur once on both sides, each once |
| PatienceSearch.LineOccurrences | crates/merge/src/lib.rs:719-731 | counts each line of the range and gives its only index where there is one |
| PatienceSearch.UniqueLisAnchors | crates/merge/src/lib.rs:692-717 | whatever order the hash map yields, the anchors are the same longest increasing ones |
| Patience.PatienceMatchesValid | crates/merge/src/lib.rs:618-690 | all matches pair equal lines inside the box and strictly increase on both sides, cutoff or not |
| PatienceLaws.OnceIsUnique | crates/merge/src/lib.rs:719-731 | a line is fit for an anchor exactly when no other line of its range equals it |
| PatienceLaws.CommonPrefixIsLongest | crates/merge/src/lib.rs:627-633 | no longer common prefix exists |
| PatienceLaws.CommonSuffixIsLongest | crates/merge/src/lib.rs:635-645 | nor a longer common suffix of what is left |
| PatienceLaws.EndsAreMatched | crates/merge/src/lib.rs:618-690 | every line of common prefix and suffix is matched with its counterpart |
| PatienceLaws.WithAnchors | crates/merge/src/lib.rs:653-681 | where there are anchors, all of them are matched and every gap between them is matched as a box of its own |
| PatienceLaws.WithoutAnchors | crates/merge/src/lib.rs:647-652 | where there are none, as many lines are matched as any matching can, unless the table is too large, and then none |
| PatienceLaws.LcsWalkIsLeast | crates/merge/src/lib.rs:798-813 | of all longest common subsequences the walk takes the one with the least side lines |
| PatienceSearch.CollectPatienceMatches | crates/merge/src/lib.rs:618-690 | the recursion terminates and appends exactly the specified matches |
| PatienceSearch.MatchingPairs | crates/merge/src/lib.rs:611-616 | the matches come out already sorted, so the final sort changes nothing, and they are a matching of the two files |
| EditScript.RegionsApply | crates/merge/src/lib.rs:582-609 | applying the edit regions to base gives the side exactly, and an untouched base line separates consecutive regions |
| EditScript.EditRegions | crates/merge/src/lib.rs:582-609 | the loop over matches produces exactly those regions |
| ConflictGroup.AbsorbCloses | crates/merge/src/lib.rs:826-869 | no edit of either side that is left out touches the conflict group |
| ConflictGroup.AbsorbIsLeast | crates/merge/src/lib.rs:826-869 | every closed group from the same start contains the one found |
| ConflictGroup.AbsorbMirrors | crates/merge/src/lib.rs:826-869 | absorbing the other side first finds the same group |
| ConflictGroup.InsideMeans | crates/merge/src/lib.rs:860-869 | a replacement is inside a range exactly when it changes a line of it, an insertion when it lies strictly between two of its lines |
| ConflictGroup.FindGroup | crates/merge/src/lib.rs:826-858 | the fixed-point loop over both sides finds that group |
| LineText.TextOfSplit | crates/merge/src/lib.rs:563-580 | splitting loses no byte |
| LineText.SplitOfText | crates/merge/src/lib.rs:563-580 | lines that end in their only newline, the last one perhaps without, split back to themselves |
| LineText.SplitForm | crates/merge/src/lib.rs:563-580 | every line of a split ends in its only newline, the last one perhaps without |
| LineText.SplitLines | crates/merge/src/lib.rs:563-580 | the scanning loop computes that split |
| MergeChunks.WalkCovers | crates/merge/src/lib.rs:436-561 | the walk cuts base, ours and theirs into consecutive chunks that concatenate to each of them; every chunk is untouched, edited on one side, agreed, or a conflict holding exactly its three versions, with the right kind |
| MergeChunks.WalkMirrors | crates/merge/src/lib.rs:464-552 | swapping the sides swaps the sides of every chunk and nothing else |
| MergeHunks.RenderText | crates/merge/src/lib.rs:905-955 | joining adjacent resolved text changes no version's bytes and no conflict |
| MergeFile.MergeTextExact | crates/merge/src/lib.rs:436-561 | the outcome shows exactly the chunks: each is what the three-way rule makes of its base, ours and theirs; clean just when none clashes, then with the settled bytes, else with the clashes in order, each of the right kind and with sides that really differ |
| MergeFile.MergeMirrors | crates/merge/src/lib.rs:388-420 | merging theirs into ours yields the same outcome with the sides of every conflict exchanged |
| MergeLaws.OneSidedChange | crates/merge/src/lib.rs:388-420 | where one side left the file alone the other side is taken byte for byte, a deletion included |
| MergeLaws.SameOrAdded | crates/merge/src/lib.rs:388-420 | what both sides did alike, and a file added by one side, is taken |
| MergeLaws.AbsentConflicts | crates/merge/src/lib.rs:407-418 | all other cases of an absent version conflict as a whole and hold exactly the three given versions |
| MergeLaws.PresentVersions | crates/merge/src/lib.rs:436-450 | three different versions conflict as a whole if one holds a zero byte or more than 8 MiB, and else merge by lines |
| MergeLaws.OneSidedText | crates/merge/src/lib.rs:436-561 | the line merge gives a one-sided change byte for byte |
| MergeLaws.SameText | crates/merge/src/lib.rs:436-561 | the line merge of equal sides gives that side byte for byte |
| MergeLaws.BothHoldsAll | crates/merge/src/lib.rs:464-552 | the joint edit script holds every edit of both sides, as often as they do |
| MergeLaws.ApartTextsMerge | crates/merge/src/lib.rs:464-552 | edits that keep apart merge to the base with exactly both sides' edits made |
| MergeLocality.MergesAreLocal | crates/merge/src/lib.rs:464-552 | cut where no edit spans: the merge is the merge before the cut and the merge after it, so conflicts stay where their edits are |
| MergeFile.ApartEditsMerge | crates/merge/src/lib.rs:464-552 | edits that neither overlap nor insert at one place merge cleanly, even when they touch |
| MergeFile.ApplyEditsToRange | crates/merge/src/lib.rs:871-893 | one side of a conflict is the base range with that side's edits applied |
| MergeLines.WalkEdits | crates/merge/src/lib.rs:456-557 | the two-cursor loop terminates and emits exactly the hunks of the walk |
| MergeLines.MergePresentLines | crates/merge/src/lib.rs:436-561 | binary and oversized files conflict as a whole, all others merge as specified |
| MergeLines.MergeLineInput | crates/merge/src/lib.rs:388-420 | equal sides, one-sided changes, additions and deletions are decided in the source's order |
| Workspace.VisitedParent | crates/materialization/src/filesystem.rs:549-580 | the parent of a directory that a scan visits is visited and does not skip it |
| CacheTruth.SoundElsewhere | crates/materialization/src/filesystem.rs:1039-1059 | records made on one disk stay sound on another where equal fingerprints mean equal content |
| CaptureEffects.DirectoryByTrust | crates/materialization/src/filesystem.rs:549-638 | with what a walk puts, its tree is retrievable exactly when every object it took on trust is stored |
| CaptureEffects.FlagsJustifyTrust | crates/materialization/src/filesystem.rs:982-989 | true flags justify everything that a capture takes on trust |
| Capture.CaptureCurrentFile | crates/materialization/src/filesystem.rs:969-1007 | the id is that of the file's content; exactly the blobs not trusted are put; the file's record is exact and stored |
| Capture.CaptureDirectory | crates/materialization/src/filesystem.rs:549-638 | succeeds exactly when a scan can, returns the scan's id, puts exactly what it does not take on trust, gives every visited directory its exact stored record and leaves all others; true flags stay true, and from them every tree it puts has its children stored, also on failure |
| Capture.PutDirectory | crates/materialization/src/filesystem.rs:618-636 | puts the tree unless the cache vouches for it, and changes this directory's record only, to stored |
| HintList.NormalizeHints | crates/materialization/src/filesystem.rs:1479-1499 | keeps only hints without excluded segments, represents every such hint by an ancestor, and no kept hint lies below another |
| HintedAccuracy.MatchesAll | crates/materialization/src/filesystem.rs:376-408 | a record whose every entry is right is exactly what a full walk records |
| ClimbLaws.ClimbsExactly | crates/materialization/src/filesystem.rs:502-547 | the ancestor loop reaches the root exactly when no record on the way is missing; then every record on the way has its own entries with the rebuilt tree of the next one down, and is stored, and all other records are untouched |
| ClimbLaws.PutsBuilt | crates/materialization/src/filesystem.rs:502-547 | also when it stops early, the loop puts exactly the rebuilt trees, from the hint up to the first missing record |
| HintedWeave.ClimbLinks | crates/materialization/src/filesystem.rs:502-547 | after the ancestor loop every record on the way up names the tree rebuilt below it, keeps its other entries, and its tree is stored |
| HintedWeave.HintsWeave | crates/materialization/src/filesystem.rs:376-547 | after any hints, records above them are linked to one another, hinted entries are what the disk has, and all other entries are the ones from before |
| HintedWeave.WovenRetrievable | crates/materialization/src/filesystem.rs:502-547 | a rebuilt tree is retrievable exactly when all the entries it took over unseen are |
| HintedWeave.WovenIsScan | crates/materialization/src/filesystem.rs:410-547 | where consulted records were right but for the hints, every rebuilt record is what a full walk records there |
| HintedSettling.AsideNext | crates/materialization/src/filesystem.rs:410-500 | processing a hint makes the records at and below it exactly a full walk's, and leaves those beside it |
| HintedSettling.TidyNext | crates/materialization/src/filesystem.rs:410-500 | processing a hint leaves no record of a directory that is gone where there was none |
| HintedSettling.WalkKeepsStale | crates/materialization/src/filesystem.rs:549-638 | a full walk refreshes every visited directory's record and neither drops nor adds a stale one |
| HintedCapture.StoreAncestor | crates/materialization/src/filesystem.rs:520-525 | puts a waiting tree and marks it stored; a store in which all trees have their children stays so exactly when this one's are there |
| HintedCapture.RebuildCachedAncestors | crates/materialization/src/filesystem.rs:502-547 | up to the root every record is rebuilt, put and stored, as computed; it fails only where a record above the hint is missing |
| HintedCapture.CaptureHintedPath | crates/materialization/src/filesystem.rs:410-500 | outcome, consulted records and store are the computed ones, a processed hint's records are exact, only rebuilt ancestors may lack children in the store, and an error means something unreadable or a missing ancestor record |
| HintedPlan.KeptHintsSuffice | crates/materialization/src/filesystem.rs:1479-1499 | what the surviving hints excuse, the compacted ones excuse |
| HintedPlan.PlanIsRetrievable | crates/materialization/src/filesystem.rs:199-241 | for every cache, store, disk and hints, an answer from hints is retrievable exactly when what it takes over unseen is retrievable in the computed store |
| HintedPlan.RightExactlyWhenCovered | crates/materialization/src/filesystem.rs:199-241 | for every cache, store, disk and hints, an answer from hints is the full walk's root exactly when the hints cover every difference between consulted records and disk |
| AnswerLaws.AnswersExactly | crates/materialization/src/filesystem.rs:376-547 | for every cache, store, disk and hints, the hints alone answer exactly when there are hints, the root's record is stored, and for each kept hint all records above it are there, its parent's is stored or rebuilt by an earlier hint, and what the disk has at it can be captured |
| AnswerLaws.AnswerPuts | crates/materialization/src/filesystem.rs:376-547 | an answer from hints has put what the disk has at the kept hints and the rebuilt trees above them, and nothing else |
| HintedTree.CaptureHintedPaths | crates/materialization/src/filesystem.rs:376-408 | whether the hints give a root, that root and the store are the computed ones; exact records away from the hints become exact everywhere |
| HintedTree.SettledAbove | crates/materialization/src/filesystem.rs:376-547 | after all hints the records above them are exactly a full walk's |
| HintedTree.CaptureTree | crates/materialization/src/filesystem.rs:158-197 | succeeds exactly when the workspace can be scanned, returns its root, and the root is retrievable exactly when all that was taken on trust is stored, so always when flags are true |
| HintedTree.CaptureTreeWithHints | crates/materialization/src/filesystem.rs:199-241 | whether hints alone answer, the root, the store and its retrievability are those computed beforehand, otherwise it is a full walk; an answer is the full walk's exactly when the hints cover every difference; exact records become exact again; an error is explained |
| HintedPlan.StoredTakeoverSuffices | crates/materialization/src/filesystem.rs:502-547 | what is retrievable in the store before the capture justifies taking it over |
| HintedPlan.RetrievableWasTakenOver | crates/materialization/src/filesystem.rs:549-638 | if a captured tree is retrievable, so is every entry of its records that hints would take over |
| Glimpses.LookSame | crates/materialization/src/filesystem.rs:549-580 | two directories that show the same at every path under a name scan to the same there |
| HintedChanges.ChangesAtHintsSuffice | crates/materialization/src/filesystem.rs:199-241 | after a capture and changes only at or below the hints, consulted records differ from the disk only there exactly when none is left over from a directory that is gone |
| HintedChanges.AgreesUnlessStale | crates/materialization/src/filesystem.rs:199-241 | after a capture and changes only at or below surviving hints, an answer from them is the full walk's root exactly when no consulted record is left over |
| HintedChanges.TidyMeansNoneStale | crates/materialization/src/filesystem.rs:549-638 | no hints whatever find a left-over record exactly when every record is for a directory that a scan visits |
| HintedChanges.TakeoverIsRetrievable | crates/materialization/src/filesystem.rs:199-241 | if the captured tree was retrievable and no record is left over, all that the next hinted capture takes over is retrievable |
| HintedChanges.SurvivingHintsSuffice | crates/materialization/src/filesystem.rs:1479-1499 | changes at the hints are changes at the surviving ones exactly when no dropped hint ends in an excluded name where something visible changed |
| HintedChanges.AnswersFromHints | crates/materialization/src/filesystem.rs:376-500 | from exact records, hints alone answer exactly when the root is not hinted, every kept hint's parent is visited, and what is there can be captured |
| MaterializerRuns.Perform | crates/materialization/src/filesystem.rs:158-374 | every operation is a step of the run relation |
| MaterializerRuns.FlagsOverRuns | crates/materialization/src/filesystem.rs:1061-1076 | over any run from true flags, they are true in every state exactly when no materialisation vouched for a missing blob |
| MaterializerRuns.RootsOverRuns | crates/materialization/src/filesystem.rs:158-241 | over any run from true flags without vouching, every returned root is retrievable exactly when every answer from hints takes over only what is retrievable, as computed beforehand |
| MaterializerRuns.ClosedOverRuns | crates/materialization/src/filesystem.rs:502-638 | over any such run from a store in which all trees have their children, the store stays so exactly when no hinted capture puts a rebuilt ancestor with an entry that is not stored |
| MaterializerRuns.HintedAgreesUnlessStale | crates/materialization/src/filesystem.rs:199-241 | after a capture and changes at surviving hints, a hinted capture returns the full walk's root exactly when hints alone give no answer or no consulted record is left over |
| MaterializerRuns.NothingDangles | crates/materialization/src/filesystem.rs:158-374 | a run that materialises only retrievable trees or roots it returned, with justified hinted captures, keeps flags true and every returned root retrievable ever after |
| MaterializerRuns.DanglingSpreads | crates/materialization/src/filesystem.rs:1188-1203 | once a tree that is not retrievable has been materialised, flags are untrue and a full capture returns that tree, still not retrievable |
| WatchRuns.CaptureSettles | crates/cli/src/main.rs:405-446 | after any reported changes, a successful hinted or reconciling capture returns the full walk's root, retrievable, and leaves exact records |
| WatchRuns.WatchLoop | crates/cli/src/main.rs:395-457 | through any run of the watch loop, every root returned is a full walk's and is retrievable |
| WatchRuns.CaptureStarts | crates/materialization/src/filesystem.rs:158-197 | a full capture from true flags leaves exact records of a retrievable tree exactly when no record was stale |
| WatchRuns.MaterializeContinues | crates/materialization/src/filesystem.rs:339-374 | materialising a retrievable tree that scans can record keeps the records exact |
| DanglingExample.HintedCaptureCanDangle | crates/materialization/src/filesystem.rs:502-547 | with the records that a cut-short comparison leaves, the hint covers every difference, and the computed answer is the full walk's root with content missing and a stored tree without its child |
| DanglingExample.DanglingRun | crates/materialization/src/filesystem.rs:1176-1203 | from an empty cache: capture, compare, hinted capture, materialise, full capture; both captures return a root that is not retrievable |
| HintExamples.StaleRecordIsRevived | crates/materialization/src/filesystem.rs:410-547 | with a left-over record and no change at all, the computed answer is not the full walk's root |
| HintExamples.StaleRecordMayNotMatter | crates/materialization/src/filesystem.rs:410-424 | the same left-over record under a hint that it cannot answer: a full walk is due |
| HintExamples.StaleRun | crates/materialization/src/filesystem.rs:410-547 | two full captures and a hint below a removed directory return a tree that has the directory again |
| HintExamples.ExcludedFileIsMissed | crates/materialization/src/filesystem.rs:1479-1499 | a changed and hinted plain file with an excluded name: its hint is dropped and the answer is the old root |
| HintExamples.ExcludedFileRun | crates/materialization/src/filesystem.rs:213-224 | capture, edit and hinted capture return the root of before the edit |
| HintExamples.ExcludedTargetRun | crates/materialization/src/filesystem.rs:1113-1174 | a target with an excluded directory is materialised, and the scan does not return it |
| Scanning.ScanDirectory | crates/materialization/src/filesystem.rs:640-717 | succeeds exactly when every entry can be read, returns the scan's id, puts nothing, and refreshes exactly the visited directories' records, stored only where nothing changed |
| DiskLaws.ScanFailsWhere | crates/materialization/src/filesystem.rs:640-717 | a scan fails exactly where it would come upon a special file or a rejected symlink, outside the metadata and excluded directories |
| DiskLaws.ScanRecords | crates/materialization/src/filesystem.rs:640-717 | at every path a scan records exactly the files, with their bytes, and the directories that are open to it |
| TreeChanges.NoDifferenceIsEqual | crates/materialization/src/filesystem.rs:719-802 | two trees are equal exactly when no path differs |
| TreeChanges.ListedIsTopmost | crates/materialization/src/filesystem.rs:719-802 | nothing above a listed path is itself a difference |
| TreeChanges.KindIsRight | crates/materialization/src/filesystem.rs:889-967 | added, deleted, modified and type-changed say what the two entries at the path are |
| TreeChanges.DifferenceIsListed | crates/materialization/src/filesystem.rs:719-802 | wherever two trees differ, a listed path lies at, above or below |
| ChangeLists.EmptyListIsEqual | crates/materialization/src/filesystem.rs:719-802 | the complete change list is empty exactly when the trees are equal |
| Comparison.ReadIncludedEntries | crates/materialization/src/filesystem.rs:804-845 | the sorted names that are neither skipped nor symlinks; it fails only where a scan would |
| Comparison.CompareMatchingEntry | crates/materialization/src/filesystem.rs:889-967 | a name on both sides yields the scan's id and exactly the changes under it |
| Comparison.CompareDirectory | crates/materialization/src/filesystem.rs:719-802 | the merge join computes the scan's id and lists exactly the topmost differing paths, in order and once each; it fails only when a scan or the saved tree does |
| Comparison.CompareTree | crates/materialization/src/filesystem.rs:278-322 | succeeds exactly when the disk can be scanned and the saved trees it needs be fetched; the change list holds every topmost difference of saved tree and disk once, in path order, with its kind, and nothing else; it is empty exactly when the saved and current roots are equal; the records are those a scan leaves |
| DiskLaws.FetchesExactly | crates/materialization/src/filesystem.rs:719-802 | a comparison needs exactly the saved trees at the paths where the disk has a directory too |
| MaterializedTrees.ScanOfMaterialized | crates/materialization/src/filesystem.rs:1113-1174 | a scan of the result succeeds, and returns the target exactly when every name in it is one a scan records |
| MaterializedTrees.ScanIsIncludable | crates/materialization/src/filesystem.rs:1417-1420 | a scan never records a skipped name, at any depth |
| MaterializedTrees.DirectoryLaid | crates/materialization/src/filesystem.rs:1113-1174 | laying a tree succeeds exactly when all its trees can be fetched, every blob too unless the file already has its content, and pruning meets no rejected symlink |
| DiskLaws.LaysExactly | crates/materialization/src/filesystem.rs:1113-1226 | laying a target succeeds exactly when at every directory of it the tree can be fetched, each blob can be fetched unless the file has its content already, and no symlink that is to go is a rejected one |
| MaterializedTrees.LaidIsRetrievable | crates/materialization/src/filesystem.rs:1188-1203 | a tree laid to the end is retrievable exactly when no missing blob was vouched for |
| MaterializedTrees.RetrievableIsLaid | crates/materialization/src/filesystem.rs:1113-1174 | a retrievable tree never vouches for a missing blob, and is always laid where symlinks are not rejected |
| MaterializedTrees.NothingToPutBelow | crates/materialization/src/filesystem.rs:982-989 | capturing what was materialised puts nothing |
| MaterializedTrees.HeldIsExpected | crates/materialization/src/filesystem.rs:1171-1172 | the records that materialising leaves are those of a full capture |
| Materialization.PruneDirectory | crates/materialization/src/filesystem.rs:1377-1415 | of the names the target does not use, exactly the metadata, excluded directories and skipped symlinks survive, unchanged, and the removed ones' records are forgotten; it fails exactly for a rejected symlink |
| Materialization.MaterializeBlob | crates/materialization/src/filesystem.rs:1176-1226 | the file has the target's content, even when the write was skipped, and its record is exact; it fails exactly when a blob to be written is missing |
| Materialization.MaterializeDirectory | crates/materialization/src/filesystem.rs:1113-1174 | every target entry is in place and on record, recursively, whatever was there before; success and untrue flags are exactly as computed; a failure leaves sound records for what is then on disk |
| Materialization.MaterializeTree | crates/materialization/src/filesystem.rs:339-374 | after a success, in every directory of the target, its entries are in place with their bytes, and of everything else exactly the ".era" child, excluded directories and skipped symlinks are as they were; materialise then scan returns the target for any starting disk, and a capture puts nothing, exactly for targets a scan could record; from true flags they stay true after a success exactly when the target is retrievable |
| CacheKeys.DecodeOfEncodeKey | crates/materialization/src/capture_cache.rs:659-688 | a path is recovered from its key |
| CacheKeys.EncodeOfDecodeKey | crates/materialization/src/capture_cache.rs:659-688 | an accepted key is the key of the path it decodes to |
| CacheKeys.AcceptedKeys | crates/materialization/src/capture_cache.rs:676-688 | the keys refused are exactly those with an empty segment |
| CacheKeys.KeyMatches | crates/materialization/src/capture_cache.rs:613-657 | a key equals another or continues it after a slash exactly when the path lies at or below the other |
| CacheKeys.Sandwich | crates/materialization/src/capture_cache.rs:622-634 | in key order, everything between a prefix and a key that starts with it starts with it |
| CacheKeys.ScanRange | crates/materialization/src/capture_cache.rs:622-634 | the ordered scan with its early break finds every key that starts with the prefix and no other |
| CacheKeys.RemovePathFromTable | crates/materialization/src/capture_cache.rs:613-653 | deletes exactly the records at or below the path |
| CacheLayers.Invalidates | crates/materialization/src/capture_cache.rs:301-318 | dropping records in memory and noting the invalidation removes exactly the subtree from view |
| CacheLayers.Flushes | crates/materialization/src/capture_cache.rs:101-169 | a flushed table with nothing pending shows the same records |
| CacheLayers.FlushTable | crates/materialization/src/capture_cache.rs:124-163 | the table ends without the invalidated records and with every dirty one |
| CacheLayers.LoadTable | crates/materialization/src/capture_cache.rs:56-84 | every visible record is in memory and the view is unchanged |
| CaptureCaching.CaptureCache.LoadAll | crates/materialization/src/capture_cache.rs:47-88 | brings every visible record into memory and leaves the view unchanged |
| CaptureCaching.CaptureCache.DropBulkLoadedRecords | crates/materialization/src/capture_cache.rs:90-99 | keeps only dirty records in memory and leaves the view unchanged |
| CaptureCaching.CaptureCache.Flush | crates/materialization/src/capture_cache.rs:101-169 | leaves the view unchanged, nothing pending, and the tables alone holding it |
| CaptureCaching.CaptureCache.FileLookup | crates/materialization/src/capture_cache.rs:179-198 | answers from the view and leaves it unchanged |
| CaptureCaching.CaptureCache.InsertFile | crates/materialization/src/capture_cache.rs:200-237 | changes the view at one path, keeping a known stored flag or base, and reports whether it changed |
| CaptureCaching.CaptureCache.InsertDirectory | crates/materialization/src/capture_cache.rs:248-273 | changes the view at one path and reports whether it changed |
| CaptureCaching.CaptureCache.UpdateDirectoryEntries | crates/materialization/src/capture_cache.rs:275-299 | replaces the entries of a known directory, which then is not stored |
| CaptureCaching.CaptureCache.InvalidatePath | crates/materialization/src/capture_cache.rs:301-334 | removes exactly one subtree from the view, and reports a change always with a backend, else exactly when the view changed |
| CaptureCaching.CaptureCache.CurrentFile | crates/materialization/src/capture_cache.rs:336-348 | finds what the view holds and may keep it in memory |
| RecordHistories.FileRecordMeans | crates/materialization/src/capture_cache.rs:200-237 | over every history of insertions: a record counts as stored exactly when its content has not changed since it was last stored, and the base offered is the content last stored |
| RecordHistories.DirectoryRecordMeans | crates/materialization/src/capture_cache.rs:248-299 | over every history of insertions and updates: a directory record has the last entries, and counts as stored exactly when they were stored and never replaced since |
| CaptureCaching.PerformAll | crates/materialization/src/capture_cache.rs:47-363 | over any run of operations every answer, of lookups and of changes, is the plain map's, and so is the final view |
| BlobDelta.CommonSuffixLen | crates/object-store/src/blob_delta.rs:146-154 | the longest common suffix within the bound |
| BlobDelta.DecodeOfEncodeDelta | crates/object-store/src/blob_delta.rs:55-100 | a delta decodes from its own bytes |
| BlobDelta.EncodeOfDecodeDelta | crates/object-store/src/blob_delta.rs:55-100 | accepted delta bytes re-encode to themselves |
| BlobDelta.CreateReconstructs | crates/object-store/src/blob_delta.rs:23-53 | a created delta rebuilds its target from its base, is one link deeper and more than 1024 bytes smaller |
| BlobDelta.CreatedExactly | crates/object-store/src/blob_delta.rs:23-53 | a delta is created exactly for a target of at least 16 KiB on a base fewer than 16 links deep whose longest common prefix and suffix leave out more than 1118 bytes, and it inserts exactly what lies between them |
| BlobDelta.DecodedExactly | crates/object-store/src/blob_delta.rs:55-88 | bytes without the magic are no delta; those with it are damaged exactly when the header is short or the insert has another length than it says |
| BlobDelta.ReconstructsExactly | crates/object-store/src/blob_delta.rs:104-136 | a base is accepted exactly where the recorded lengths fit together, the first misfit decides the error, and the result begins and ends as the base does, around the insert |
| CodecLayout.DeltaLayout | crates/object-store/src/blob_delta.rs:90-102 | every field of the encoding, by offset and byte |
| BlobReading.ReadIsSound | crates/object-store/src/local.rs:294-373 | on any store, a successful read returns bytes that hash to the id and the true number of base links, at most 16 |
| BlobReading.ReadShifts | crates/object-store/src/local.rs:300-303 | a readable chain reads the same from deeper in a recursion exactly while it stays within the limit |
| BlobReading.ReadPersists | crates/object-store/src/local.rs:294-373 | files that appear later do not change a successful read |
| BlobReading.ReadOverIsRead | crates/object-store/src/local.rs:294-373 | a read whose file openings see later and later stores returns what the first store would give |
| BlobReading.ReadBlobDataAt | crates/object-store/src/local.rs:294-373 | the recursive read opens one file a link, and at most 17, even on a cyclic store |
| BlobLaws.ReadsExactly | crates/object-store/src/local.rs:294-373 | on any store, a read gives these bytes at this depth exactly when a sound chain of that many deltas, at most 16 from the start, rebuilds them with the right hash |
| BlobLaws.FailsAtFault | crates/object-store/src/local.rs:294-373 | a failing read names a blob on its chain and what is wrong with it: missing, too deep, damaged, a wrong depth or a wrong hash |
| BlobLaws.SteadyRead | crates/object-store/src/local.rs:294-373 | where nothing changes meanwhile, a read spread over time is one reading, error or not |
| BlobWriters.PlanIsSound | crates/object-store/src/local.rs:266-285 | whatever base is offered, linking the chosen bytes makes the blob readable |
| BlobLaws.PlansExactly | crates/object-store/src/local.rs:266-285 | a delta is written exactly where a base other than the blob is offered, is readable and a delta on it can be created; it rebuilds the blob and is shorter by more than 1024 bytes |
| BlobWriters.LinkIsReadable | crates/object-store/src/local.rs:375-427 | linking raw or delta bytes under a free name makes that id readable |
| BlobWriters.StepIsConsistent | crates/object-store/src/local.rs:375-427 | every step of every writer keeps all published ids readable and no put failed |
| BlobWriters.RunGrows | crates/object-store/src/local.rs:400-427 | no published object ever changes or disappears, over any run |
| BlobWriters.PutsAreDurable | crates/object-store/src/local.rs:70-85 | under every interleaving with any base hints, no put fails and a finished put reads back its exact bytes, then and ever after |
| BlobLaws.MovesExactly | crates/object-store/src/local.rs:375-427 | on any store, a put is done only when it has linked its bytes or read its blob, fails only with what reading its blob gives, and never rewrites an object that can be read |
| BlobLaws.PutsComplete | crates/object-store/src/local.rs:375-427 | under every interleaving a put that has had four turns is done |
| BlobWriters.LinksAreAcyclic | crates/object-store/src/local.rs:266-373 | in every reachable state the base links of a published id end, and none leads back to it |
| BlobWriters.RacingReadIsAtomic | crates/object-store/src/local.rs:294-373 | a read racing with writers returns what one atomic read at its start would |
| SnapshotGraph.BackIsEarlier | crates/repository/src/repository.rs:828-851 | following first parents never returns to where it started |
| SnapshotGraph.HistoryIsBack | crates/repository/src/repository.rs:687-712 | the history lists exactly what following first parents reaches, in order |
| SnapshotGraph.Timeline | crates/repository/src/repository.rs:687-712 | where parents are stored before children it lists the whole first-parent history without a cycle error; a reported cycle or missing snapshot is real |
| CursorSafety.OtherOk | crates/repository/src/repository.rs:248-300 | what one process does under its lock disturbs no other process |
| CursorSafety.PutKeepsGrounded | crates/repository/src/repository.rs:828-851 | storing a snapshot on a stored parent keeps parents stored before children |
| CursorSafety.StepIsSafe | crates/repository/src/repository.rs:248-300 | every step keeps refs, parents, locks and all processes in order |
| CursorRuns.TipsOnlyGrow | crates/repository/src/repository.rs:277-300 | over any run without a restore or switch of the cursor, the old tip is an ancestor of the new one |
| CursorRuns.RacingSavesAgree | crates/repository/src/repository.rs:277-300 | racing changed-only requests that captured one tree save it at most once, and not at all if the tip already has it |
| CursorOutcomes.CursorHeld | crates/repository/src/repository.rs:248-300 | from its write until its release nobody moves a process's cursor |
| CursorOutcomes.RestoreLands | crates/repository/src/repository.rs:555-595 | over every run, a finished restore has written its target into the cursor, and the cursor names it when the lock is released |
| CursorOutcomes.SaveLands | crates/repository/src/repository.rs:248-265 | a finished unconditional save has advanced its cursor from the tip to a stored snapshot of its tree, with the tip as parent |
| CursorOutcomes.ChangedSaveLands | crates/repository/src/repository.rs:277-300 | a changed-only save does the same where the tip has another tree, and leaves every ref alone where it has the same |
| CursorOutcomes.SwitchLands | crates/repository/src/repository.rs:514-552 | a finished workspace switch has left its cursor at the branch's tip as it read it |
| CursorOutcomes.SwitchMovesHead | crates/repository/src/repository.rs:514-552 | a finished switch of the repository itself has pointed HEAD at the branch |
| CursorOutcomes.CreationNames | crates/repository/src/repository.rs:492-511 | a finished creation has added a ref that was not there, at the snapshot its cursor named |
| CursorOutcomes.FailsWhere | crates/repository/src/repository.rs:492-511 | the only operation that fails is a creation whose name was taken meanwhile |
| CursorProgress.NoLockIsLeaked | crates/repository/src/repository.rs:248-300 | in every reachable state each lock belongs to a process that has still to release it |
| CursorProgress.NoneIsStuck | crates/repository/src/repository.rs:248-300 | in every reachable state a process that is neither over nor waiting for a lock can take a step |
| SnapshotIndex.StepRecords | crates/repository/src/repository.rs:782-796 | every step, of a writer or of a rebuild, leaves each stored snapshot known |
| SnapshotIndex.NothingIsForgotten | crates/repository/src/repository.rs:782-851 | once the complete marker exists, every stored snapshot is indexed or its writer sits between put and index |
| SnapshotIndex.IndexIsExact | crates/repository/src/repository.rs:782-851 | the index never names what is not stored; once it is complete and no writer is between put and index, it names exactly the stored snapshots |
| CursorProgress.OneRebuild | crates/repository/src/repository.rs:782-796 | at most one rebuild is at work, and none once the index is complete |
| CursorProgress.RebuildCompletes | crates/repository/src/repository.rs:782-796 | a finished rebuild has left the index marked complete |
| SnapshotIndex.RepositoryIsSafe | crates/repository/src/repository.rs:514-595 | in every reachable state refs name stored snapshots, history is acyclic, and an operation past saving has left its captured tree as the root of a stored snapshot |
| SnapshotIndex.InitialIsQuiet | crates/repository/src/repository.rs:81-88 | a repository as initialised meets what these theorems start from |
| TreeCodec.DecodeOfEncodeTree | crates/core/src/tree.rs:118-188 | every well-formed tree decodes from its own bytes |
| TreeCodec.EncodeOfDecodeTree | crates/core/src/tree.rs:118-188 | accepted bytes are the encoding of the well-formed tree they decode to |
| TreeCodec.ToCanonicalBytes | crates/core/src/tree.rs:118-132 | the appending loop writes those bytes |
| TreeCodec.FromCanonicalBytes | crates/core/src/tree.rs:135-188 | the parsing loop accepts, and refuses with the same error, exactly as specified |
| CodecLayout.TreeLayout | crates/core/src/tree.rs:118-132 | the encoding byte by byte: magic, four-byte count, and for each entry a letter b or t, a four-byte length, the name and the id |
| TreeRefusals.TruncatedTree | crates/core/src/tree.rs:135-188 | an encoding cut short anywhere ends too early |
| TreeRefusals.TrailingExactly | crates/core/src/tree.rs:180-185 | trailing bytes are reported exactly when a shorter prefix is a whole tree |
| TreeRefusals.FaultyTree | crates/core/src/tree.rs:135-188 | the first entry that may not stand where it does decides the refusal: not UTF-8, an invalid name, a repeated one, or one out of order |
| TreeRefusals.UnknownKind | crates/core/src/tree.rs:143-147 | a kind byte other than b and t is refused with its index |
| TreeRefusals.NameRules | crates/core/src/tree.rs:349-372 | exactly the empty name, one dot, two dots, and names with a slash or a zero byte are invalid |
| TreeConstruction.NewIgnoresOrder | crates/core/src/tree.rs:95-100 | any order of the same entries gives the same tree or the same duplicate error |
| TreeConstruction.NewIsCanonical | crates/core/src/tree.rs:95-100 | a built tree holds exactly the given entries in canonical form; it is refused only for a repeated name |
| SnapshotCodec.DecodeOfEncodeSnapshot | crates/core/src/snapshot.rs:131-207 | every well-formed snapshot decodes from its own bytes |
| SnapshotCodec.EncodeOfDecodeSnapshot | crates/core/src/snapshot.rs:131-207 | accepted bytes are the encoding of the well-formed snapshot they decode to |
| SnapshotCodec.ToCanonicalBytes | crates/core/src/snapshot.rs:131-148 | the encoder's appends write those bytes |
| SnapshotCodec.FromCanonicalBytes | crates/core/src/snapshot.rs:152-207 | the decoder accepts, and refuses with the same error, exactly as specified |
| SnapshotCodec.ReadAttributes | crates/core/src/snapshot.rs:170-192 | the attribute loop reads them in strictly ascending key order or reports the duplicate or disorder |
| CodecLayout.SnapshotLayout | crates/core/src/snapshot.rs:131-148 | the encoding byte by byte, from the magic to the last attribute |
| SnapshotRefusals.TruncatedSnapshot | crates/core/src/snapshot.rs:152-207 | an encoding cut short ends too early, or within the magic is a wrong magic |
| SnapshotRefusals.TrailingExactly | crates/core/src/snapshot.rs:192-197 | trailing bytes are reported exactly when a shorter prefix is a whole snapshot |
| SnapshotRefusals.FaultyText | crates/core/src/snapshot.rs:164-166 | the first text that is not UTF-8 decides the refusal and is named by it |
| SnapshotRefusals.FaultyAttribute | crates/core/src/snapshot.rs:170-192 | the first attribute that may not stand where it does decides the refusal: text, repetition or order |
| TimelineForest.NewForest | crates/cli/src/main.rs:1086-1141 | every snapshot is listed once under its first parent or as a root, in order of time and id |
| TimelineForest.OnlyOneChildAbove | crates/cli/src/main.rs:1096-1103 | of a snapshot's children exactly one leads to each descendant |
| TimelineRendering.AutoChain | crates/cli/src/main.rs:1267-1285 | the loop collects exactly the collapsible snapshots that follow as only children |
| TimelineRendering.PrintNodeOrAutoChain | crates/cli/src/main.rs:1160-1195 | the recursion terminates and prints exactly the specified lines |
| TimelineRendering.EverySnapshotOnce | crates/cli/src/main.rs:1148-1195 | every snapshot is printed exactly once, as its own line or inside exactly one collapsed run |
| TimelineRendering.RunsAreMaximal | crates/cli/src/main.rs:1160-1195 | every collapsed run is a maximal run of at least three collapsible only children, and no snapshot printed on its own belongs to such a run |
| TimelineRendering.WholeRunIsMaximal | crates/cli/src/main.rs:1267-1285 | every collapsible snapshot belongs to a maximal run |
| TimelineRendering.RunIsWhole | crates/cli/src/main.rs:1267-1285 | and to only one |
| TimelineLaws.CollapsibleMeans | crates/cli/src/main.rs:1286-1300 | a snapshot is collapsible exactly when it is automatic, unlabelled, unmarked, with at most one listed parent and at most one child |
| TimelineOrder.RenderInOrder | crates/cli/src/main.rs:1160-1195 | what is printed for a snapshot comes in order, parents first, siblings by time and id |
| TimelinePrinting.PrintTimeline | crates/cli/src/main.rs:1148-1195 | on any acyclic set of snapshots the output mentions each once and nothing else, parents before descendants and siblings by time and id; collapsed are exactly the whole runs of three or more snapshots that are automatic, unlabelled, not current, not in the worktree, not named, and have at most one parent and one child |

## Left out

- BLAKE3, hexadecimal ids and UTF-8 validation: hashes, ids and the UTF-8 test are abstract.
- Cache record codecs and database opening, corruption and sharing: table values are the records themselves and table operations do not fail.
- MaterializerRuns.ClosedOverRuns: covers runs in which no materialisation vouches; after one does, a later capture that trusts the untrue flag may put a tree that names the missing blob.
- What exactly a failed materialisation leaves on disk: the model returns it, and proves that the cache is sound for it.
- A hint below a symlinked directory: the model reports an error where the system may follow the link.
- Directory listing order in captures and scans: entries are visited in an arbitrary order, since only comparison depends on it.
- Entry name validation and non-UTF-8 names while walking a disk: they only add error returns.
- Base hints of blob puts inside a capture: by `BlobWriters.PutsAreDurable` they cannot change what is stored under an id.
- Error offsets in the codecs: errors carry their kind and names, not byte positions.
- Stale-lock removal, lock timeouts, crashes between put and index, and temporary-file retries: wall-clock and failure behaviour.
- Resolving snapshot targets, workspace paths and HEAD parsing: a restore starts from any stored snapshot, a switch from any existing ref.
- Statistics, tracing, styling, prefixes and connectors of printed lines: no hard property.
- Merge strategy dispatch, filesystem watching and command-line parsing: plumbing around the modelled parts.
