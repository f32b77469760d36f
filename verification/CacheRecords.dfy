/** The capture cache as one plain map from paths to records: what every operation on it means. */
module CacheRecords {
  import opened Wrappers
  import opened Workspace

  datatype FileRecord = FileRecord(mark: Fingerprint, id: Id, stored: bool, storedBase: Option<Id>)

  /** The tree id of a directory record is the id of its entries. */
  datatype DirectoryRecord = DirectoryRecord(entries: Entries, stored: bool)

  datatype View = View(files: map<Path, FileRecord>, directories: map<Path, DirectoryRecord>)

  function Get<T>(records: map<Path, T>, path: Path): (record: Option<T>) {
    if path in records then Some(records[path]) else None
  }

  datatype FileLookup = FileLookup(matching: Option<FileRecord>, storedBase: Option<Id>)

  function StoredBase(record: FileRecord): (base: Option<Id>) {
    if record.stored then Some(record.id) else record.storedBase
  }

  function LookupFile(record: Option<FileRecord>, mark: Fingerprint): (found: FileLookup) {
    if record.None? then FileLookup(None, None)
    else FileLookup(if record.value.mark == mark then record else None, StoredBase(record.value))
  }

  function NextFile(previous: Option<FileRecord>, mark: Fingerprint, id: Id, stored: bool): (next: FileRecord) {
    if stored || (previous.Some? && previous.value.id == id && previous.value.stored) then
      FileRecord(mark, id, true, None)
    else
      FileRecord(mark, id, false, if previous.Some? then StoredBase(previous.value) else None)
  }

  function NextDirectory(previous: Option<DirectoryRecord>, entries: Entries, stored: bool): (next: DirectoryRecord) {
    DirectoryRecord(entries, stored || previous == Some(DirectoryRecord(entries, true)))
  }

  function WithFile(v: View, path: Path, mark: Fingerprint, id: Id, stored: bool): (next: View) {
    v.(files := v.files[path := NextFile(Get(v.files, path), mark, id, stored)])
  }

  function WithDirectory(v: View, path: Path, entries: Entries, stored: bool): (next: View) {
    v.(directories := v.directories[path := NextDirectory(Get(v.directories, path), entries, stored)])
  }

  /** New entries for a known directory: the record then waits to be stored again. */
  function WithEntries(v: View, path: Path, entries: Entries): (next: View) {
    if path !in v.directories then v
    else v.(directories := v.directories[path := DirectoryRecord(entries, false)])
  }

  /** The cache after a subtree is invalidated. */
  function Without(v: View, path: Path): (next: View) {
    View(map p | p in v.files && !(path <= p) :: v.files[p],
         map p | p in v.directories && !(path <= p) :: v.directories[p])
  }

  /** Forgotten are exactly the records at the path and below it. */
  lemma {:induction false} ForgetsSubtree(v: View, path: Path, p: Path)
    ensures var below, next := |path| <= |p| && p[..|path|] == path, Without(v, path);
      && Get(next.files, p) == (if below then None else Get(v.files, p))
      && Get(next.directories, p) == (if below then None else Get(v.directories, p))
  {
  }
}
