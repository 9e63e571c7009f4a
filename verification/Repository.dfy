/**
 The database together with the two stores it describes: whole NAR files, named by their URL, and
 chunk files, named by their hash. Every deleting pass (eviction, stale-lock cleanup, fsck repair) is
 an instance of one relation, Prunes, and what a pass may not lose is proved about that relation.
 */
module Repository {
  import opened Collections
  import opened Database

  datatype Repo = Repo(db: Tables, nars: set<NarKey>, chunkFiles: set<Hash>)

  /**
   `b` is `a` after deletions that lose nothing a surviving row depends on: a surviving nar_file keeps
   its columns (but verified_at), all its chunk rows and whatever bytes they had, and a link survives with its two ends.
   */
  ghost predicate Prunes(a: Repo, b: Repo) {
    && PrunesRows(a.db, b.db)
    && b.chunkFiles <= a.chunkFiles
    && (forall s :: s in b.db.slots && b.db.slots[s] in a.chunkFiles ==> b.db.slots[s] in b.chunkFiles)
    && b.nars <= a.nars
    && (forall f :: f in b.db.narFiles && b.db.narFiles[f].key in a.nars ==> b.db.narFiles[f].key in b.nars)
  }

  ghost predicate PrunesRows(t: Tables, u: Tables) {
    && Consistent(u)
    && (forall i :: i in u.narinfos ==> i in t.narinfos && u.narinfos[i] == t.narinfos[i])
    && (forall f :: f in u.narFiles ==> f in t.narFiles && SameFile(u.narFiles[f], t.narFiles[f]))
    && (forall l :: l in u.links <==> l in t.links && l.info in u.narinfos && l.file in u.narFiles)
    && (forall s :: s in u.slots <==> s in t.slots && s.file in u.narFiles)
    && (forall s :: s in u.slots ==> u.slots[s] == t.slots[s])
    && u.chunks <= t.chunks
    && u.nextFile == t.nextFile
  }

  /** Equal in every column but verified_at. */
  ghost predicate SameFile(a: NarFile, b: NarFile) {
    a == b.(verifiedAt := a.verifiedAt)
  }

  lemma PrunesReflexive(r: Repo)
    requires Consistent(r.db)
    ensures Prunes(r, r)
  {}

  lemma PrunesRowsTransitive(t: Tables, u: Tables, v: Tables)
    requires PrunesRows(t, u) && PrunesRows(u, v)
    ensures PrunesRows(t, v)
  {}

  lemma PrunesTransitive(a: Repo, b: Repo, c: Repo)
    requires Prunes(a, b) && Prunes(b, c)
    ensures Prunes(a, c)
  {
    PrunesRowsTransitive(a.db, b.db, c.db);
  }

  // ---------------------------------------------------------------- the deleting passes

  /** Deletes nar_files, then the narinfos that thereby lost their last nar_file. */
  function DeleteFilesAndInfos(t: Tables, files: set<Id>): Tables {
    var u := DeleteFiles(t, files);
    DeleteInfos(u, BareInfos(u) - BareInfos(t))
  }

  /** Deletes every chunk that no row uses, from the table and from the chunk store. */
  function SweepChunks(r: Repo): Repo {
    var orphans := OrphanChunks(r.db);
    r.(db := DeleteChunks(r.db, orphans), chunkFiles := r.chunkFiles - orphans)
  }

  lemma DeleteInfosPrunes(t: Tables, ids: set<Id>)
    requires Consistent(t)
    ensures PrunesRows(t, DeleteInfos(t, ids))
  {}

  lemma DeleteFilesPrunes(t: Tables, ids: set<Id>)
    requires Consistent(t)
    ensures PrunesRows(t, DeleteFiles(t, ids))
  {}

  lemma DeleteFilesAndInfosPrunes(t: Tables, files: set<Id>)
    requires Consistent(t)
    ensures PrunesRows(t, DeleteFilesAndInfos(t, files))
    ensures DeleteFilesAndInfos(t, files).narFiles == t.narFiles - files
  {}

  lemma DeleteUnusedChunksPrunes(t: Tables, hashes: set<Hash>)
    requires Consistent(t) && hashes <= OrphanChunks(t)
    ensures PrunesRows(t, DeleteChunks(t, hashes))
    ensures DeleteChunks(t, hashes).slots == t.slots
  {
    assert forall s :: s in t.slots ==> t.slots[s] in t.slots.Values;
  }

  lemma SweepChunksPrunes(r: Repo)
    requires Consistent(r.db)
    ensures Prunes(r, SweepChunks(r))
    ensures OrphanChunks(SweepChunks(r).db) == {}
  {
    DeleteUnusedChunksPrunes(r.db, OrphanChunks(r.db));
    assert forall s :: s in r.db.slots ==> r.db.slots[s] in r.db.slots.Values;
  }

  // ---------------------------------------------------------------- broken and healthy NARs

  /** isNarFileChunkBroken, for the total_chunks the caller has in hand. */
  predicate ChunksBroken(r: Repo, file: Id, total: nat) {
    var rows := ChunksFrom(r.db, file, 0);
    |rows| != total || exists h :: h in rows && h !in r.chunkFiles
  }

  /** On the rows: their number is wrong, or one of them leads to a chunk that is not in the store. */
  lemma ChunksBrokenIff(r: Repo, file: Id, total: nat)
    ensures ChunksBroken(r, file, total) <==>
      || |set s | s in r.db.slots && s.file == file| != total
      || exists s :: s in r.db.slots && s.file == file && r.db.slots[s] !in r.chunkFiles
  {
    QueryReturnsAllRows(r.db, file);
    if exists s :: s in r.db.slots && s.file == file && r.db.slots[s] !in r.chunkFiles {
      var s :| s in r.db.slots && s.file == file && r.db.slots[s] !in r.chunkFiles;
      assert r.db.slots[s] in ChunksFrom(r.db, file, 0);
    }
  }

  /** A NAR can be served: whole from the NAR store, or from a complete, size-consistent chunk set. */
  ghost predicate Servable(r: Repo, file: Id) {
    && file in r.db.narFiles
    && if r.db.narFiles[file].totalChunks == 0 then
         r.db.narFiles[file].key in r.nars
       else
         && !ChunksBroken(r, file, r.db.narFiles[file].totalChunks)
         && file !in SizeMismatches(r.db)
  }

  /** Pruning never changes the rows of a surviving nar_file, nor breaks its chunks. */
  lemma PruningKeepsRows(a: Repo, b: Repo, file: Id)
    requires Prunes(a, b) && file in b.db.narFiles
    ensures ChunksFrom(b.db, file, 0) == ChunksFrom(a.db, file, 0)
    ensures forall total :: ChunksBroken(b, file, total) ==> ChunksBroken(a, file, total)
  {
    assert ChunkIndices(b.db, file, 0) == ChunkIndices(a.db, file, 0);
    var q := Ascending(ChunkIndices(b.db, file, 0));
    var rows := ChunksFrom(b.db, file, 0);
    forall i | 0 <= i < |q|
      ensures Slot(file, q[i]) in b.db.slots && rows[i] == b.db.slots[Slot(file, q[i])]
    {
      assert q[i] in ChunkIndices(b.db, file, 0);
    }
  }

  /** Pruning that spares a servable NAR leaves it servable. */
  lemma PruningKeepsServable(a: Repo, b: Repo, file: Id)
    requires Prunes(a, b) && file in b.db.narFiles && Servable(a, file)
    ensures Servable(b, file)
  {
    PruningKeepsRows(a, b, file);
    PruningKeepsMismatches(a, b);
  }

  lemma PruningKeepsMismatches(a: Repo, b: Repo)
    requires Prunes(a, b)
    ensures SizeMismatches(b.db) <= SizeMismatches(a.db)
  {
    forall f | f in SizeMismatches(b.db)
      ensures f in SizeMismatches(a.db)
    {
      var l :| l in b.db.links && Mismatched(b.db, l) && l.file == f;
      assert l in a.db.links && Mismatched(a.db, l);
    }
  }
}
