/** One kind of cached record in its layers: memory over pending invalidations over the backend table. */
module CacheLayers {
  import opened Wrappers
  import opened Workspace
  import opened CacheRecords
  import opened CacheKeys

  predicate Invalidated(invalidations: seq<Path>, p: Path) {
    invalidations != [] && (invalidations[0] <= p || Invalidated(invalidations[1..], p))
  }

  function Lookup<T>(table: map<Key, T>, p: Path): (record: Option<T>) {
    if EncodeKey(p) in table then Some(table[EncodeKey(p)]) else None
  }

  /** The record a lookup finds: in memory, else in the table unless it was invalidated. */
  function Visible<T>(memory: map<Path, T>, invalidations: seq<Path>, table: Option<map<Key, T>>, p: Path)
    : (record: Option<T>)
  {
    if p in memory then Some(memory[p])
    else if table.None? || Invalidated(invalidations, p) then None
    else Lookup(table.value, p)
  }

  /** A record that is not dirty is in the table just as it is in memory. */
  ghost predicate Backed<T>(memory: map<Path, T>, dirty: set<Path>, invalidations: seq<Path>, table: map<Key, T>) {
    && dirty <= memory.Keys && KeysDecode(table)
    && forall p <- memory :: p in dirty || (!Invalidated(invalidations, p) && Lookup(table, p) == Some(memory[p]))
  }

  ghost predicate ValidKeys<T>(records: map<Path, T>) {
    forall p <- records :: ValidPath(p)
  }

  /** The layers together show exactly the plain map `view`. */
  ghost predicate Shows<T>(view: map<Path, T>, memory: map<Path, T>, dirty: set<Path>, invalidations: seq<Path>,
                           table: Option<map<Key, T>>) {
    && ValidKeys(view) && ValidKeys(memory)
    && (forall p: Path :: ValidPath(p) ==> Get(view, p) == Visible(memory, invalidations, table, p))
    && (table.Some? ==> Backed(memory, dirty, invalidations, table.value))
  }

  lemma {:induction false} InvalidatedPush(invalidations: seq<Path>, path: Path, p: Path)
    ensures Invalidated(invalidations + [path], p) <==> Invalidated(invalidations, p) || path <= p
  {
    if invalidations != [] {
      assert (invalidations + [path])[1..] == invalidations[1..] + [path];
      InvalidatedPush(invalidations[1..], path, p);
    }
  }

  /** Reading a record into memory changes nothing that is visible. */
  lemma {:induction false} Remembers<T>(view: map<Path, T>, memory: map<Path, T>, dirty: set<Path>,
                                        invalidations: seq<Path>, table: Option<map<Key, T>>, path: Path)
    requires Shows(view, memory, dirty, invalidations, table) && ValidPath(path)
    requires Visible(memory, invalidations, table, path).Some?
    ensures Shows(view, memory[path := Visible(memory, invalidations, table, path).value], dirty, invalidations, table)
  {
    hide ValidPath, EncodeKey, Invalidated, KeysDecode;
  }

  /** Inserting a record changes the one path. */
  lemma {:induction false} Inserts<T>(view: map<Path, T>, memory: map<Path, T>, dirty: set<Path>,
                                      invalidations: seq<Path>, table: Option<map<Key, T>>, path: Path, record: T)
    requires Shows(view, memory, dirty, invalidations, table) && ValidPath(path)
    ensures Shows(view[path := record], memory[path := record], dirty + {path}, invalidations, table)
  {
    hide ValidPath, EncodeKey, Invalidated, KeysDecode;
  }

  /** Dropping the clean records from memory changes nothing that is visible. */
  lemma {:induction false} Drops<T>(view: map<Path, T>, memory: map<Path, T>, kept: map<Path, T>, dirty: set<Path>,
                                    invalidations: seq<Path>, table: map<Key, T>)
    requires Shows(view, memory, dirty, invalidations, Some(table))
    requires kept == map p | p in memory && p in dirty :: memory[p]
    ensures Shows(view, kept, dirty, invalidations, Some(table))
  {
    hide ValidPath, EncodeKey, Invalidated, KeysDecode;
  }

  function Outside<T>(records: map<Path, T>, path: Path): (kept: map<Path, T>) {
    map p | p in records && !(path <= p) :: records[p]
  }

  /** Invalidating removes exactly the subtree. */
  lemma {:induction false} Invalidates<T>(view: map<Path, T>, memory: map<Path, T>, dirty: set<Path>, left: set<Path>,
                                          invalidations: seq<Path>, table: Option<map<Key, T>>, path: Path)
    requires Shows(view, memory, dirty, invalidations, table) && ValidPath(path)
    requires left == set p | p in dirty && !(path <= p)
    ensures Shows(Outside(view, path), Outside(memory, path), left, invalidations + [path], table)
  {
    hide ValidPath, EncodeKey, Invalidated, KeysDecode;
    forall p: Path ensures Invalidated(invalidations + [path], p) <==> Invalidated(invalidations, p) || path <= p {
      InvalidatedPush(invalidations, path, p);
    }
  }

  lemma {:induction false} InvalidatesInMemory<T>(view: map<Path, T>, memory: map<Path, T>, dirty: set<Path>,
                                                  invalidations: seq<Path>, path: Path)
    requires Shows(view, memory, dirty, invalidations, None)
    ensures Shows(Outside(view, path), Outside(memory, path), dirty, invalidations, None)
  {
    hide ValidPath, EncodeKey;
  }

  /** The table after a flush: the old one without the invalidated records, then every dirty record. */
  ghost function FlushedRecord<T>(memory: map<Path, T>, dirty: set<Path>, invalidations: seq<Path>,
                                  table: map<Key, T>, p: Path): (record: Option<T>)
  {
    if p in dirty then Get(memory, p) else if Invalidated(invalidations, p) then None else Lookup(table, p)
  }

  ghost predicate Flushed<T>(memory: map<Path, T>, dirty: set<Path>, invalidations: seq<Path>, table: map<Key, T>,
                             flushed: map<Key, T>) {
    && KeysDecode(flushed)
    && forall p: Path ::
      ValidPath(p) ==> Lookup(flushed, p) == FlushedRecord(memory, dirty, invalidations, table, p)
  }

  lemma {:induction false} Flushes<T>(view: map<Path, T>, memory: map<Path, T>, dirty: set<Path>,
                                      invalidations: seq<Path>, table: map<Key, T>, flushed: map<Key, T>)
    requires Shows(view, memory, dirty, invalidations, Some(table))
    requires Flushed(memory, dirty, invalidations, table, flushed)
    ensures Shows(view, memory, {}, [], Some(flushed))
  {
    hide ValidPath, EncodeKey, KeysDecode, Invalidated, Lookup;
    NothingInvalidated();
    forall p: Path | ValidPath(p) ensures Get(view, p) == Visible(memory, [], Some(flushed), p) {
      assert Get(view, p) == Visible(memory, invalidations, Some(table), p);
    }
  }

  lemma {:induction false} NothingInvalidated()
    ensures forall p: Path :: !Invalidated([], p)
  {
  }

  ghost predicate Trimmed<T>(invalidations: seq<Path>, table: map<Key, T>, trimmed: map<Key, T>) {
    && KeysDecode(trimmed)
    && forall p: Path ::
      ValidPath(p) ==> Lookup(trimmed, p) == if Invalidated(invalidations, p) then None else Lookup(table, p)
  }

  ghost predicate AllValid(paths: seq<Path>) {
    paths == [] || (ValidPath(paths[0]) && AllValid(paths[1..]))
  }

  lemma {:induction false} AllValidAt(paths: seq<Path>, i: nat)
    requires AllValid(paths) && i < |paths|
    ensures ValidPath(paths[i])
  {
    if i > 0 {
      AllValidAt(paths[1..], i - 1);
    }
  }

  lemma {:induction false} AllValidPush(paths: seq<Path>, path: Path)
    requires AllValid(paths) && ValidPath(path)
    ensures AllValid(paths + [path])
  {
    if paths != [] {
      assert (paths + [path])[1..] == paths[1..] + [path];
      AllValidPush(paths[1..], path);
    }
  }

  /** Removing one more invalidated subtree from the table. */
  lemma {:induction false} TrimsOne<T>(done: seq<Path>, path: Path, table: map<Key, T>, trimmed: map<Key, T>,
                                       left: map<Key, T>)
    requires Trimmed(done, table, trimmed) && ValidPath(path)
    requires left == map k | k in trimmed && !(path <= DecodeKey(k).value) :: trimmed[k]
    ensures Trimmed(done + [path], table, left)
  {
    hide EncodeKey, DecodeKey, Invalidated, ValidPath;
    forall p: Path | ValidPath(p)
      ensures Lookup(left, p) == if Invalidated(done + [path], p) then None else Lookup(table, p)
    {
      InvalidatedPush(done, path, p);
      DecodeOfEncodeKey(p);
      assert Lookup(trimmed, p) == if Invalidated(done, p) then None else Lookup(table, p);
    }
  }

  /** The flush's first half: every pending invalidation is carried out on the table. */
  method TrimTable<T>(invalidations: seq<Path>, table: map<Key, T>) returns (trimmed: map<Key, T>)
    requires AllValid(invalidations) && KeysDecode(table)
    ensures Trimmed(invalidations, table, trimmed)
  {
    hide EncodeKey, DecodeKey, Invalidated, ValidPath, AllValid;
    trimmed := table;
    NothingInvalidated();
    var i: nat := 0;
    assert invalidations[..0] == [];
    while i < |invalidations|
      invariant i <= |invalidations| && Trimmed(invalidations[..i], table, trimmed)
    {
      AllValidAt(invalidations, i);
      var left := RemovePathFromTable(trimmed, invalidations[i]);
      TrimsOne(invalidations[..i], invalidations[i], table, trimmed, left);
      assert invalidations[..i + 1] == invalidations[..i] + [invalidations[i]];
      trimmed := left;
      i := i + 1;
    }
    assert invalidations[..i] == invalidations;
  }

  function WriteOne<T>(memory: map<Path, T>, table: map<Key, T>, path: Path): (written: map<Key, T>) {
    if path in memory then table[EncodeKey(path) := memory[path]] else table - {EncodeKey(path)}
  }

  lemma {:induction false} WritesOne<T>(memory: map<Path, T>, done: set<Path>, invalidations: seq<Path>,
                                        table: map<Key, T>, written: map<Key, T>, path: Path)
    requires Flushed(memory, done, invalidations, table, written) && ValidPath(path)
    ensures Flushed(memory, done + {path}, invalidations, table, WriteOne(memory, written, path))
  {
    hide EncodeKey, DecodeKey, Invalidated, ValidPath;
    DecodeOfEncodeKey(path);
    forall p: Path | ValidPath(p)
      ensures Lookup(WriteOne(memory, written, path), p)
           == FlushedRecord(memory, done + {path}, invalidations, table, p)
    {
      DecodeOfEncodeKey(p);
      assert Lookup(written, p) == FlushedRecord(memory, done, invalidations, table, p);
    }
  }

  /** The whole flush of one table. */
  method FlushTable<T>(memory: map<Path, T>, dirty: set<Path>, invalidations: seq<Path>, table: map<Key, T>)
    returns (flushed: map<Key, T>)
    requires AllValid(invalidations) && KeysDecode(table) && forall p <- dirty :: ValidPath(p)
    ensures Flushed(memory, dirty, invalidations, table, flushed)
  {
    hide EncodeKey, DecodeKey, Invalidated, ValidPath, AllValid, Lookup, WriteOne;
    flushed := TrimTable(invalidations, table);
    var todo := dirty;
    while todo != {}
      invariant todo <= dirty && Flushed(memory, dirty - todo, invalidations, table, flushed)
      decreases todo
    {
      var path :| path in todo;
      WritesOne(memory, dirty - todo, invalidations, table, flushed, path);
      assert dirty - (todo - {path}) == dirty - todo + {path};
      flushed := WriteOne(memory, flushed, path);
      todo := todo - {path};
    }
    assert dirty - {} == dirty;
  }

  /** Reads every table record that is neither in memory nor invalidated. */
  method LoadTable<T>(ghost view: map<Path, T>, memory: map<Path, T>, ghost dirty: set<Path>, invalidations: seq<Path>,
                      table: map<Key, T>)
    returns (loaded: map<Path, T>)
    requires Shows(view, memory, dirty, invalidations, Some(table))
    ensures Shows(view, loaded, dirty, invalidations, Some(table))
    ensures forall p <- view :: p in loaded
  {
    hide EncodeKey, DecodeKey, Invalidated, ValidPath, Shows;
    loaded := memory;
    var todo := table.Keys;
    TableDecodes(view, memory, dirty, invalidations, table);
    while todo != {}
      invariant todo <= table.Keys && Shows(view, loaded, dirty, invalidations, Some(table))
      invariant forall p <- memory :: p in loaded
      invariant forall k <- table.Keys - todo :: DecodeKey(k).value in loaded || Invalidated(invalidations,
                                                                                             DecodeKey(k).value)
      decreases todo
    {
      var key :| key in todo;
      var path := DecodeKey(key).value;
      EncodeOfDecodeKey(key);
      if path !in loaded && !Invalidated(invalidations, path) {
        Remembers(view, loaded, dirty, invalidations, Some(table), path);
        loaded := loaded[path := table[key]];
      }
      todo := todo - {key};
    }
    forall p <- view ensures p in loaded {
      SeenSomewhere(view, memory, dirty, invalidations, table, p);
      DecodeOfEncodeKey(p);
      assert p in memory || EncodeKey(p) in table.Keys - {};
    }
  }

  lemma {:induction false} TableDecodes<T>(view: map<Path, T>, memory: map<Path, T>, dirty: set<Path>,
                                           invalidations: seq<Path>, table: map<Key, T>)
    requires Shows(view, memory, dirty, invalidations, Some(table))
    ensures KeysDecode(table)
  {
  }

  lemma {:induction false} SeenSomewhere<T>(view: map<Path, T>, memory: map<Path, T>, dirty: set<Path>,
                                            invalidations: seq<Path>, table: map<Key, T>, p: Path)
    requires Shows(view, memory, dirty, invalidations, Some(table)) && p in view
    ensures ValidPath(p) && (p in memory || (EncodeKey(p) in table && !Invalidated(invalidations, p)))
  {
    hide EncodeKey, ValidPath, Invalidated;
    assert Get(view, p) == Visible(memory, invalidations, Some(table), p);
  }
}
