/** What a record in the capture cache says, told from everything that was put in for its path. */
module RecordHistories {
  import opened Wrappers
  import opened Workspace
  import opened CacheRecords

  /** One insertion for a file: how it looked, what it held, and whether that was stored. */
  datatype Sighting = Sighting(mark: Fingerprint, id: Id, stored: bool)

  /** The record after the insertions, oldest first, since the path was last invalidated. */
  function FileAfter(history: seq<Sighting>): (record: Option<FileRecord>) {
    if history == [] then None
    else
      var last := history[|history| - 1];
      Some(NextFile(FileAfter(history[..|history| - 1]), last.mark, last.id, last.stored))
  }

  /** The insertion at `i` is the last that stored its content. */
  ghost predicate LastStored(history: seq<Sighting>, i: nat) {
    i < |history| && history[i].stored && forall j :: i < j < |history| ==> !history[j].stored
  }

  ghost predicate NoneStored(history: seq<Sighting>) {
    forall i :: 0 <= i < |history| ==> !history[i].stored
  }

  /** The file has held the same content from insertion `i` on. */
  ghost predicate SameSince(history: seq<Sighting>, i: nat) {
    forall j :: i <= j < |history| ==> history[j].id == history[i].id
  }

  /**
   * The record shows the last content seen. It counts as stored exactly when the content has not changed since it was
   * last stored, and the base offered for a delta is the content that was last stored.
   */
  lemma {:induction false} FileRecordMeans(history: seq<Sighting>)
    requires history != []
    ensures var last, record := history[|history| - 1], FileAfter(history).value;
      record.mark == last.mark && record.id == last.id
    ensures NoneStored(history) ==>
      !FileAfter(history).value.stored && LookupFile(FileAfter(history), 0).storedBase == None
    ensures forall i: nat :: LastStored(history, i) ==>
      && (FileAfter(history).value.stored <==> SameSince(history, i))
      && LookupFile(FileAfter(history), 0).storedBase == Some(history[i].id)
    decreases |history|
  {
    var n := |history| - 1;
    var before, last := history[..n], history[n];
    if before != [] {
      FileRecordMeans(before);
    }
    if NoneStored(history) {
      assert NoneStored(before);
    }
    forall i: nat | LastStored(history, i)
      ensures FileAfter(history).value.stored <==> SameSince(history, i)
      ensures StoredBase(FileAfter(history).value) == Some(history[i].id)
    {
      if i < n {
        StoredEarlier(history, i);
      }
    }
  }

  /** The step where the last insertion stores nothing itself. */
  lemma {:induction false} StoredEarlier(history: seq<Sighting>, i: nat)
    requires LastStored(history, i) && i < |history| - 1
    requires var before := history[..|history| - 1];
      && FileAfter(before).value.id == before[|before| - 1].id
      && (LastStored(before, i) ==>
            && (FileAfter(before).value.stored <==> SameSince(before, i))
            && StoredBase(FileAfter(before).value) == Some(before[i].id))
    ensures FileAfter(history).value.stored <==> SameSince(history, i)
    ensures StoredBase(FileAfter(history).value) == Some(history[i].id)
  {
    var n := |history| - 1;
    var before := history[..n];
    assert LastStored(before, i);
    assert before[n - 1] == history[n - 1];
    if SameSince(history, i) {
      assert SameSince(before, i) && history[n].id == history[n - 1].id;
    } else if SameSince(before, i) {
      assert history[n].id != history[n - 1].id;
    }
  }

  /** A lookup offers the record itself only to a file that still looks as it did, whatever the base is. */
  lemma {:induction false} MatchesByMark(history: seq<Sighting>, mark: Fingerprint)
    ensures LookupFile(FileAfter(history), mark).matching
         == if history != [] && mark == history[|history| - 1].mark then FileAfter(history) else None
    ensures LookupFile(FileAfter(history), mark).storedBase == LookupFile(FileAfter(history), 0).storedBase
  {
  }

  /** What happened to a directory's record: new contents, stored or not, or new entries put in by a hint. */
  datatype Visit = Inserted(entries: Entries, stored: bool) | Updated(entries: Entries)

  function DirectoryAfter(history: seq<Visit>): (record: Option<DirectoryRecord>) {
    if history == [] then None
    else
      var before := DirectoryAfter(history[..|history| - 1]);
      var v := View(map[], if before.None? then map[] else map[[] := before.value]);
      match history[|history| - 1]
      case Inserted(entries, stored) => Get(WithDirectory(v, [], entries, stored).directories, [])
      case Updated(entries) => Get(WithEntries(v, [], entries).directories, [])
  }

  /** Stored at `i`, and from then on only found unchanged. */
  ghost predicate UnchangedSince(history: seq<Visit>, i: nat) {
    && i < |history| && history[i].Inserted? && history[i].stored
    && forall j :: i <= j < |history| ==> history[j].Inserted? && history[j].entries == history[i].entries
  }

  /**
   * There is a record once contents have been inserted; it has the entries last put in, and counts as stored exactly
   * when they were stored and every visit since found them unchanged.
   */
  lemma {:induction false} DirectoryRecordMeans(history: seq<Visit>)
    ensures DirectoryAfter(history).Some? <==> exists i :: 0 <= i < |history| && history[i].Inserted?
    ensures DirectoryAfter(history).Some? ==>
      && DirectoryAfter(history).value.entries == history[|history| - 1].entries
      && (DirectoryAfter(history).value.stored <==> exists i: nat :: UnchangedSince(history, i))
    decreases |history|
  {
    if history != [] {
      var n := |history| - 1;
      var before := history[..n];
      DirectoryRecordMeans(before);
      assert forall i :: 0 <= i < n ==> history[i] == before[i];
      RecordStays(history);
      if DirectoryAfter(history).Some? {
        StoredStays(history);
      }
    }
  }

  lemma {:induction false} RecordStays(history: seq<Visit>)
    requires history != []
    requires var before := history[..|history| - 1];
      DirectoryAfter(before).Some? <==> exists i :: 0 <= i < |before| && before[i].Inserted?
    ensures DirectoryAfter(history).Some? <==> exists i :: 0 <= i < |history| && history[i].Inserted?
    ensures DirectoryAfter(history).Some? ==>
      DirectoryAfter(history).value.entries == history[|history| - 1].entries
  {
    var n := |history| - 1;
    var before := history[..n];
    assert forall i :: 0 <= i < n ==> history[i] == before[i];
    if DirectoryAfter(before).Some? {
      var i :| 0 <= i < |before| && before[i].Inserted?;
      assert history[i].Inserted?;
    } else if history[n].Inserted? {
      assert history[n].Inserted?;
    }
  }

  lemma {:induction false} StoredStays(history: seq<Visit>)
    requires history != [] && DirectoryAfter(history).Some?
    requires var before := history[..|history| - 1];
      DirectoryAfter(before).Some? ==>
        && DirectoryAfter(before).value.entries == before[|before| - 1].entries
        && (DirectoryAfter(before).value.stored <==> exists i: nat :: UnchangedSince(before, i))
    ensures DirectoryAfter(history).value.stored <==> exists i: nat :: UnchangedSince(history, i)
  {
    var n := |history| - 1;
    var before, last := history[..n], history[n];
    assert forall i :: 0 <= i < n ==> history[i] == before[i];
    if DirectoryAfter(history).value.stored {
      if last.stored {
        assert UnchangedSince(history, n);
      } else {
        var i: nat :| UnchangedSince(before, i);
        assert before[n - 1].entries == before[i].entries;
        assert UnchangedSince(history, i);
      }
    }
    if i: nat :| UnchangedSince(history, i) {
      if i < n {
        assert UnchangedSince(before, i) && history[n - 1].entries == history[n].entries;
        InsertedIsThere(before);
      }
    }
  }

  lemma {:induction false} InsertedIsThere(history: seq<Visit>)
    requires history != [] && history[|history| - 1].Inserted?
    ensures DirectoryAfter(history).Some?
  {
  }
}
