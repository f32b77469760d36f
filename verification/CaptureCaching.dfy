/** The write-back capture cache. All its layers together behave as one plain map from paths to records. */
module CaptureCaching {
  import opened Wrappers
  import opened Workspace
  import opened CacheRecords
  import opened CacheKeys
  import opened CacheLayers
  import Seqs

  datatype Tables = Tables(files: map<Key, FileRecord>, directories: map<Key, DirectoryRecord>)

  function FilesTable(backend: Option<Tables>): (table: Option<map<Key, FileRecord>>) {
    if backend.Some? then Some(backend.value.files) else None
  }

  function DirectoriesTable(backend: Option<Tables>): (table: Option<map<Key, DirectoryRecord>>) {
    if backend.Some? then Some(backend.value.directories) else None
  }

  class CaptureCache {
    var files: map<Path, FileRecord>
    var directories: map<Path, DirectoryRecord>
    var dirtyFiles: set<Path>
    var dirtyDirectories: set<Path>
    var invalidations: seq<Path>
    var backend: Option<Tables>
    var loadedAll: bool

    /** The plain map that the cache stands for. */
    ghost var view: View

    ghost predicate Valid()
      reads this
    {
      && Shows(view.files, files, dirtyFiles, invalidations, FilesTable(backend))
      && Shows(view.directories, directories, dirtyDirectories, invalidations, DirectoriesTable(backend))
      && AllValid(invalidations)
    }

    constructor InMemory()
      ensures Valid() && view == View(map[], map[]) && backend.None?
    {
      files, directories, dirtyFiles, dirtyDirectories := map[], map[], {}, {};
      invalidations, backend, loadedAll := [], None, false;
      view := View(map[], map[]);
    }

    /** Opens a cache over existing tables: it shows what they hold. */
    constructor Load(tables: Tables, ghost shown: View)
      requires Shows(shown.files, map[], {}, [], Some(tables.files))
      requires Shows(shown.directories, map[], {}, [], Some(tables.directories))
      ensures Valid() && view == shown && backend == Some(tables)
    {
      files, directories, dirtyFiles, dirtyDirectories := map[], map[], {}, {};
      invalidations, backend, loadedAll := [], Some(tables), false;
      view := shown;
    }

    method LoadAll()
      requires Valid()
      modifies this
      ensures Valid() && view == old(view) && backend == old(backend) && loadedAll
      ensures backend.Some? && !old(loadedAll) ==>
        (forall p <- view.files :: p in files) && (forall p <- view.directories :: p in directories)
    {
      hide Shows, AllValid;
      if !loadedAll && backend.Some? {
        files := LoadTable(view.files, files, dirtyFiles, invalidations, backend.value.files);
        directories := LoadTable(view.directories, directories, dirtyDirectories, invalidations,
                                 backend.value.directories);
      }
      loadedAll := true;
    }

    method DropBulkLoadedRecords()
      requires Valid()
      modifies this
      ensures Valid() && view == old(view) && backend == old(backend)
      ensures backend.Some? && old(loadedAll) ==> files.Keys <= dirtyFiles && directories.Keys <= dirtyDirectories
    {
      hide Shows, AllValid;
      if backend.None? || !loadedAll {
        return;
      }
      var keptFiles := map p | p in files && p in dirtyFiles :: files[p];
      var keptDirectories := map p | p in directories && p in dirtyDirectories :: directories[p];
      Drops(view.files, files, keptFiles, dirtyFiles, invalidations, backend.value.files);
      Drops(view.directories, directories, keptDirectories, dirtyDirectories, invalidations,
            backend.value.directories);
      files, directories, loadedAll := keptFiles, keptDirectories, false;
    }

    /** Writes what is pending; afterwards the tables alone hold the whole view. */
    method Flush()
      requires Valid()
      modifies this
      ensures Valid() && view == old(view) && dirtyFiles == {} && dirtyDirectories == {} && invalidations == []
      ensures backend.Some? == old(backend.Some?)
      ensures backend.Some? ==> Shows(view.files, map[], {}, [], Some(backend.value.files))
      ensures backend.Some? ==> Shows(view.directories, map[], {}, [], Some(backend.value.directories))
    {
      hide Shows, AllValid, Flushed;
      if backend.None? {
        Forgets(view.files, files, dirtyFiles, invalidations);
        Forgets(view.directories, directories, dirtyDirectories, invalidations);
      } else {
        DirtyIsValid(view.files, files, dirtyFiles, invalidations, backend.value.files);
        DirtyIsValid(view.directories, directories, dirtyDirectories, invalidations, backend.value.directories);
        var newFiles := FlushTable(files, dirtyFiles, invalidations, backend.value.files);
        var newDirectories := FlushTable(directories, dirtyDirectories, invalidations, backend.value.directories);
        Flushes(view.files, files, dirtyFiles, invalidations, backend.value.files, newFiles);
        Flushes(view.directories, directories, dirtyDirectories, invalidations, backend.value.directories,
                newDirectories);
        TableShows(view.files, files, newFiles);
        TableShows(view.directories, directories, newDirectories);
        backend := Some(Tables(newFiles, newDirectories));
      }
      NothingPending();
      dirtyFiles, dirtyDirectories, invalidations := {}, {}, [];
    }

    method CurrentFile(path: Path) returns (record: Option<FileRecord>)
      requires Valid() && ValidPath(path)
      modifies this`files
      ensures Valid() && record == Get(view.files, path) && (record.Some? ==> path in files)
    {
      hide AllValid, Invalidated, EncodeKey, ValidPath, Backed;
      record := Visible(files, invalidations, FilesTable(backend), path);
      assert Get(view.files, path) == record;
      if record.Some? {
        Remembers(view.files, files, dirtyFiles, invalidations, FilesTable(backend), path);
        files := files[path := record.value];
      }
    }

    method CurrentDirectory(path: Path) returns (record: Option<DirectoryRecord>)
      requires Valid() && ValidPath(path)
      modifies this`directories
      ensures Valid() && record == Get(view.directories, path) && (record.Some? ==> path in directories)
    {
      hide AllValid, Invalidated, EncodeKey, ValidPath, Backed;
      record := Visible(directories, invalidations, DirectoriesTable(backend), path);
      assert Get(view.directories, path) == record;
      if record.Some? {
        Remembers(view.directories, directories, dirtyDirectories, invalidations, DirectoriesTable(backend), path);
        directories := directories[path := record.value];
      }
    }

    method FileLookup(path: Path, mark: Fingerprint) returns (found: FileLookup)
      requires Valid() && ValidPath(path)
      modifies this`files
      ensures Valid() && found == LookupFile(Get(view.files, path), mark)
    {
      var record := CurrentFile(path);
      found := LookupFile(record, mark);
    }

    method GetDirectory(path: Path) returns (record: Option<DirectoryRecord>)
      requires Valid() && ValidPath(path)
      modifies this`directories
      ensures Valid() && record == Get(view.directories, path)
    {
      record := CurrentDirectory(path);
    }

    /** True when the view changed, so that there is something new to flush. */
    method InsertFile(path: Path, mark: Fingerprint, id: Id, stored: bool) returns (changed: bool)
      requires Valid() && ValidPath(path)
      modifies this`files, this`dirtyFiles, this`view
      ensures Valid() && view == WithFile(old(view), path, mark, id, stored)
      ensures changed <==> view != old(view)
    {
      hide Shows, AllValid, ValidPath, NextFile;
      var previous := CurrentFile(path);
      var next := NextFile(previous, mark, id, stored);
      if previous == Some(next) {
        KeepsRecord(view.files, files, dirtyFiles, invalidations, FilesTable(backend), path);
        assert view.files[path := next] == view.files;
        files := files[path := next];
        return false;
      }
      Inserts(view.files, files, dirtyFiles, invalidations, FilesTable(backend), path, next);
      files, dirtyFiles := files[path := next], dirtyFiles + {path};
      ghost var before := view;
      view := view.(files := view.files[path := next]);
      assert Get(view.files, path) != Get(before.files, path);
      changed := true;
    }

    method InsertDirectory(path: Path, entries: Entries, stored: bool) returns (changed: bool)
      requires Valid() && ValidPath(path)
      modifies this`directories, this`dirtyDirectories, this`view
      ensures Valid() && view == WithDirectory(old(view), path, entries, stored)
      ensures changed <==> view != old(view)
    {
      hide Shows, AllValid, ValidPath, NextDirectory;
      var previous := CurrentDirectory(path);
      var next := NextDirectory(previous, entries, stored);
      if previous == Some(next) {
        KeepsRecord(view.directories, directories, dirtyDirectories, invalidations, DirectoriesTable(backend), path);
        assert view.directories[path := next] == view.directories;
        directories := directories[path := next];
        return false;
      }
      PutDirectory(path, next);
      changed := true;
    }

    method UpdateDirectoryEntries(path: Path, entries: Entries) returns (changed: bool)
      requires Valid() && ValidPath(path)
      modifies this`directories, this`dirtyDirectories, this`view
      ensures Valid() && view == WithEntries(old(view), path, entries)
      ensures changed <==> view != old(view)
    {
      hide Shows, AllValid, ValidPath;
      var previous := CurrentDirectory(path);
      if previous.None? {
        return false;
      }
      if previous == Some(DirectoryRecord(entries, false)) {
        KeepsRecord(view.directories, directories, dirtyDirectories, invalidations, DirectoriesTable(backend), path);
        assert view.directories[path := previous.value] == view.directories;
        directories := directories[path := previous.value];
        return false;
      }
      PutDirectory(path, DirectoryRecord(entries, false));
      changed := true;
    }

    method PutDirectory(path: Path, next: DirectoryRecord)
      requires Valid() && ValidPath(path) && Get(view.directories, path) != Some(next)
      modifies this`directories, this`dirtyDirectories, this`view
      ensures Valid() && view == old(view).(directories := old(view.directories)[path := next])
      ensures view != old(view)
    {
      hide Shows, AllValid, ValidPath;
      Inserts(view.directories, directories, dirtyDirectories, invalidations, DirectoriesTable(backend), path, next);
      directories, dirtyDirectories := directories[path := next], dirtyDirectories + {path};
      ghost var before := view;
      view := view.(directories := view.directories[path := next]);
      assert Get(view.directories, path) != Get(before.directories, path);
    }

    /** With a backend something is always left to flush; in memory, true when the view changed. */
    method InvalidatePath(path: Path) returns (changed: bool)
      requires Valid() && ValidPath(path)
      modifies this
      ensures Valid() && view == Without(old(view), path) && backend == old(backend)
      ensures changed <==> backend.Some? || view != old(view)
    {
      hide Shows, AllValid, ValidPath;
      ghost var before := view;
      view := View(Outside(view.files, path), Outside(view.directories, path));
      if backend.None? {
        InvalidatesInMemory(before.files, files, dirtyFiles, invalidations, path);
        InvalidatesInMemory(before.directories, directories, dirtyDirectories, invalidations, path);
        InMemoryIsView(before.files, files, dirtyFiles, invalidations);
        InMemoryIsView(before.directories, directories, dirtyDirectories, invalidations);
        changed := InvalidateInMemory(path);
        return;
      }
      var leftFiles := set p | p in dirtyFiles && !(path <= p);
      var leftDirectories := set p | p in dirtyDirectories && !(path <= p);
      Invalidates(before.files, files, dirtyFiles, leftFiles, invalidations, FilesTable(backend), path);
      Invalidates(before.directories, directories, dirtyDirectories, leftDirectories, invalidations,
                  DirectoriesTable(backend), path);
      AllValidPush(invalidations, path);
      files, directories := Outside(files, path), Outside(directories, path);
      dirtyFiles, dirtyDirectories := leftFiles, leftDirectories;
      invalidations := invalidations + [path];
      changed := true;
    }

    method InvalidateInMemory(path: Path) returns (changed: bool)
      modifies this`files, this`directories
      ensures files == Outside(old(files), path) && directories == Outside(old(directories), path)
      ensures changed <==> files != old(files) || directories != old(directories)
    {
      CountTells(files, path);
      CountTells(directories, path);
      if path == [] {
        changed := files != map[] || directories != map[];
        files, directories := map[], map[];
        return;
      }
      var fileCount, directoryCount := |files|, |directories|;
      files, directories := Outside(files, path), Outside(directories, path);
      changed := |files| != fileCount || |directories| != directoryCount;
    }
  }

  lemma {:induction false} InMemoryIsView<T>(view: map<Path, T>, memory: map<Path, T>, dirty: set<Path>,
                                             invalidations: seq<Path>)
    requires Shows(view, memory, dirty, invalidations, None)
    ensures view == memory
  {
    hide ValidPath;
    forall p: Path ensures Get(view, p) == Get(memory, p) {
      if ValidPath(p) {
        assert Get(view, p) == Visible(memory, invalidations, None, p);
      }
    }
    forall p: Path ensures p in view <==> p in memory {
      assert Get(view, p) == Get(memory, p);
    }
    forall p <- view ensures view[p] == memory[p] {
      assert Get(view, p) == Get(memory, p);
    }
  }

  /** Removing a subtree changes the records exactly when it changes their number. */
  lemma {:induction false} CountTells<T>(records: map<Path, T>, path: Path)
    ensures |Outside(records, path)| != |records| <==> Outside(records, path) != records
    ensures path == [] ==> Outside(records, path) == map[]
  {
    var kept := Outside(records, path);
    assert kept.Keys + (records.Keys - kept.Keys) == records.Keys;
    if |kept| == |records| {
      assert |records.Keys - kept.Keys| == 0;
      assert records.Keys - kept.Keys == {};
    }
  }

  /** Without a backend, what is pending means nothing. */
  lemma {:induction false} Forgets<T>(view: map<Path, T>, memory: map<Path, T>, dirty: set<Path>,
                                      invalidations: seq<Path>)
    requires Shows(view, memory, dirty, invalidations, None)
    ensures Shows(view, memory, {}, [], None)
  {
    hide ValidPath;
  }

  lemma {:induction false} DirtyIsValid<T>(view: map<Path, T>, memory: map<Path, T>, dirty: set<Path>,
                                           invalidations: seq<Path>, table: map<Key, T>)
    requires Shows(view, memory, dirty, invalidations, Some(table))
    ensures KeysDecode(table) && forall p <- dirty :: ValidPath(p)
  {
    hide ValidPath, DecodeKey;
  }

  lemma {:induction false} NothingPending()
    ensures AllValid([])
  {
  }

  /** With nothing pending, memory only repeats the table. */
  lemma {:induction false} TableShows<T>(view: map<Path, T>, memory: map<Path, T>, table: map<Key, T>)
    requires Shows(view, memory, {}, [], Some(table))
    ensures Shows(view, map[], {}, [], Some(table))
  {
    hide ValidPath, EncodeKey, KeysDecode, Lookup;
    NothingInvalidated();
  }

  lemma {:induction false} KeepsRecord<T>(view: map<Path, T>, memory: map<Path, T>, dirty: set<Path>,
                                          invalidations: seq<Path>, table: Option<map<Key, T>>, path: Path)
    requires Shows(view, memory, dirty, invalidations, table) && ValidPath(path) && path in view
    ensures Shows(view, memory[path := view[path]], dirty, invalidations, table)
  {
    hide ValidPath, EncodeKey, Invalidated, Backed;
    assert Get(view, path) == Visible(memory, invalidations, table, path);
    Remembers(view, memory, dirty, invalidations, table, path);
  }

  /** The operations a capture performs on its cache. */
  datatype Operation =
    | LoadRecords
    | DropRecords
    | WriteBack
    | LookUpFile(path: Path, mark: Fingerprint)
    | LookUpDirectory(path: Path)
    | RecordFile(path: Path, mark: Fingerprint, id: Id, stored: bool)
    | RecordDirectory(path: Path, entries: Entries, stored: bool)
    | RecordEntries(path: Path, entries: Entries)
    | Forget(path: Path)

  datatype Answer =
    | NoAnswer
    | FileAnswer(found: FileLookup)
    | DirectoryAnswer(record: Option<DirectoryRecord>)
    | Changed(changed: bool)

  predicate ValidOperation(op: Operation) {
    op.LoadRecords? || op.DropRecords? || op.WriteBack? || ValidPath(op.path)
  }

  /** What an operation means for a plain map. */
  function Meaning(v: View, op: Operation): (next: View) {
    match op
    case RecordFile(path, mark, id, stored) => WithFile(v, path, mark, id, stored)
    case RecordDirectory(path, entries, stored) => WithDirectory(v, path, entries, stored)
    case RecordEntries(path, entries) => WithEntries(v, path, entries)
    case Forget(path) => Without(v, path)
    case _ => v
  }

  /** What a plain map answers; `durable` when there is a backend to write back to. */
  function Reply(v: View, durable: bool, op: Operation): (answer: Answer) {
    match op
    case LookUpFile(path, mark) => FileAnswer(LookupFile(Get(v.files, path), mark))
    case LookUpDirectory(path) => DirectoryAnswer(Get(v.directories, path))
    case RecordFile(_, _, _, _) => Changed(Meaning(v, op) != v)
    case RecordDirectory(_, _, _) => Changed(Meaning(v, op) != v)
    case RecordEntries(_, _) => Changed(Meaning(v, op) != v)
    case Forget(_) => Changed(durable || Meaning(v, op) != v)
    case _ => NoAnswer
  }

  function Meanings(v: View, ops: seq<Operation>): (end: View)
    decreases |ops|
  {
    if ops == [] then v else Meanings(Meaning(v, ops[0]), ops[1..])
  }

  function Replies(v: View, durable: bool, ops: seq<Operation>): (answers: seq<Answer>)
    decreases |ops|
  {
    if ops == [] then [] else [Reply(v, durable, ops[0])] + Replies(Meaning(v, ops[0]), durable, ops[1..])
  }

  method Perform(cache: CaptureCache, op: Operation) returns (answer: Answer)
    requires cache.Valid() && ValidOperation(op)
    modifies cache
    ensures cache.Valid() && cache.view == Meaning(old(cache.view), op)
    ensures cache.backend.Some? == old(cache.backend.Some?)
    ensures answer == Reply(old(cache.view), old(cache.backend.Some?), op)
  {
    hide Shows, AllValid, ValidPath, WithFile, WithDirectory, WithEntries, Without, LookupFile;
    answer := NoAnswer;
    match op {
      case LoadRecords => cache.LoadAll();
      case DropRecords => cache.DropBulkLoadedRecords();
      case WriteBack => cache.Flush();
      case LookUpFile(path, mark) =>
        var found := cache.FileLookup(path, mark);
        answer := FileAnswer(found);
      case LookUpDirectory(path) =>
        var record := cache.GetDirectory(path);
        answer := DirectoryAnswer(record);
      case RecordFile(path, mark, id, stored) =>
        var changed := cache.InsertFile(path, mark, id, stored);
        answer := Changed(changed);
      case RecordDirectory(path, entries, stored) =>
        var changed := cache.InsertDirectory(path, entries, stored);
        answer := Changed(changed);
      case RecordEntries(path, entries) =>
        var changed := cache.UpdateDirectoryEntries(path, entries);
        answer := Changed(changed);
      case Forget(path) =>
        var changed := cache.InvalidatePath(path);
        answer := Changed(changed);
    }
  }

  /** Over any run of operations the cache answers as one plain map would, and ends up showing it. */
  method PerformAll(cache: CaptureCache, ops: seq<Operation>) returns (answers: seq<Answer>)
    requires cache.Valid() && forall i :: 0 <= i < |ops| ==> ValidOperation(ops[i])
    modifies cache
    ensures cache.Valid() && cache.view == Meanings(old(cache.view), ops)
    ensures answers == Replies(old(cache.view), old(cache.backend.Some?), ops)
  {
    hide Shows, AllValid, ValidOperation, Meaning, Reply;
    ghost var begun, durable := cache.view, cache.backend.Some?;
    var i: nat := 0;
    answers := [];
    assert ops[0..] == ops;
    while i < |ops|
      invariant i <= |ops| && cache.Valid() && cache.backend.Some? == durable
      invariant Meanings(cache.view, ops[i..]) == Meanings(begun, ops)
      invariant answers + Replies(cache.view, durable, ops[i..]) == Replies(begun, durable, ops)
    {
      Seqs.HeadTail(ops, i);
      var answer := Perform(cache, ops[i]);
      answers := answers + [answer];
      i := i + 1;
    }
    assert ops[i..] == [];
  }
}
