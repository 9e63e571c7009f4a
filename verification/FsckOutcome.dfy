/** What a whole fsck round leaves, row by row and file by file, told in columns and stores alone. */
module FsckOutcome {
  import opened Collections
  import opened Database
  import opened Repository
  import opened Fsck
  import opened FsckFixpoint

  /**
   A nar_file is in order: not chunked, and its whole file is stored; or chunked, with as many rows as it says, every chunk
   of them stored, and of the size that every narinfo linked to it declares.
   */
  ghost predicate Healthy(r: Repo, f: Id)
    requires f in r.db.narFiles
  {
    if r.db.narFiles[f].totalChunks == 0 then
      r.db.narFiles[f].key in r.nars
    else
      && |set s | s in r.db.slots && s.file == f| == r.db.narFiles[f].totalChunks
      && (forall s :: s in r.db.slots && s.file == f ==> r.db.slots[s] in r.chunkFiles)
      && (forall l :: l in r.db.links && l.file == f && l.info in r.db.narinfos && r.db.narinfos[l.info].narSize.Some? ==>
            r.db.narinfos[l.info].narSize.value == r.db.narFiles[f].fileSize)
  }

  lemma HealthyIffServable(r: Repo, f: Id)
    requires f in r.db.narFiles
    ensures Healthy(r, f) <==> Servable(r, f)
  {
    if r.db.narFiles[f].totalChunks > 0 {
      ChunksBrokenIff(r, f, r.db.narFiles[f].totalChunks);
      assert f in SizeMismatches(r.db) <==> exists l :: l in r.db.links && l.file == f && Mismatched(r.db, l);
    }
  }

  /** The categories that phase 1 reports, in columns. */
  lemma CategoriesInColumns(r: Repo, f: Id)
    requires f in r.db.narFiles
    ensures f in MissingFiles(r) <==> r.db.narFiles[f].totalChunks == 0 && r.db.narFiles[f].key !in r.nars
    ensures f in BrokenFiles(r) <==>
      && r.db.narFiles[f].totalChunks > 0
      && (|| |set s | s in r.db.slots && s.file == f| != r.db.narFiles[f].totalChunks
          || exists s :: s in r.db.slots && s.file == f && r.db.slots[s] !in r.chunkFiles)
    ensures f in SizeMismatches(r.db) <==>
      && r.db.narFiles[f].totalChunks > 0
      && exists l :: l in r.db.links && l.file == f && l.info in r.db.narinfos
           && r.db.narinfos[l.info].narSize.Some? && r.db.narinfos[l.info].narSize.value != r.db.narFiles[f].fileSize
  {
    ChunksBrokenIff(r, f, r.db.narFiles[f].totalChunks);
    if f in SizeMismatches(r.db) {
      var l :| l in r.db.links && Mismatched(r.db, l) && l.file == f;
    }
  }

  /** What is left of the database. */
  ghost predicate RowsLeft(r: Repo, r': Repo, now: nat)
    requires Consistent(r.db)
  {
    var t, u := r.db, r'.db;
    && (forall l :: l in u.links <==> l in t.links && Healthy(r, l.file))
    && (forall i :: i in u.narinfos <==> i in t.narinfos && exists l :: l in t.links && l.info == i && Healthy(r, l.file))
    && (forall i :: i in u.narinfos ==> u.narinfos[i] == t.narinfos[i])
    && (forall f :: f in u.narFiles <==> f in t.narFiles && Healthy(r, f) && exists l :: l in t.links && l.file == f)
    && (forall f :: f in u.narFiles ==> u.narFiles[f] == t.narFiles[f].(verifiedAt := Some(now)))
    && (forall s :: s in u.slots <==> s in t.slots && s.file in u.narFiles)
    && (forall s :: s in u.slots ==> u.slots[s] == t.slots[s])
    && (forall h :: h in u.chunks <==> exists s :: s in u.slots && u.slots[s] == h)
  }

  /**
   What is left in the stores: NAR files that some nar_file named when the round began, and chunk files that are still
   used or whose record was already unused then; the latter are stray from now on.
   */
  ghost predicate FilesLeft(r: Repo, r': Repo) {
    && (forall k :: k in r'.nars <==> k in r.nars && exists f :: f in r.db.narFiles && r.db.narFiles[f].key == k)
    && (forall h :: h in r'.chunkFiles <==>
          && h in r.chunkFiles && h in r.db.chunks
          && ((forall s :: s in r.db.slots ==> r.db.slots[s] != h) || exists s :: s in r'.db.slots && r'.db.slots[s] == h))
  }

  lemma LinksLeft(r: Repo, r': Repo, now: nat, f: Findings)
    requires Consistent(r.db) && Round(r, r', now, f)
    ensures forall l :: l in r'.db.links <==> l in r.db.links && Healthy(r, l.file)
  {
    RoundPrunes(r, r', now, f);
    forall l | l in r.db.links
      ensures l in r'.db.links <==> Healthy(r, l.file)
    {
      RoundKeepsIffServable(r, r', now, f, l);
      HealthyIffServable(r, l.file);
    }
  }

  lemma RowsAreLeft(r: Repo, r': Repo, now: nat, f: Findings)
    requires Consistent(r.db) && Round(r, r', now, f)
    ensures RowsLeft(r, r', now)
  {
    var t, u := r.db, r'.db;
    LinksLeft(r, r', now, f);
    RoundPrunes(r, r', now, f);
    RoundCleansRows(r, r', now, f);
    UsedChunksStay(u);
    var healthy := set g | g in t.narFiles && Healthy(r, g);
    assert forall l :: l in u.links <==> l in t.links && l.file in healthy;
    forall i
      ensures i in u.narinfos <==> i in t.narinfos && exists l :: l in t.links && l.info == i && Healthy(r, l.file)
    {
      InfoIsLeft(t, u, healthy, i);
    }
    forall g
      ensures g in u.narFiles <==> g in t.narFiles && Healthy(r, g) && exists l :: l in t.links && l.file == g
    {
      FileIsLeft(t, u, healthy, g);
    }
    forall g | g in u.narFiles
      ensures u.narFiles[g] == t.narFiles[g].(verifiedAt := Some(now))
    {
      SurvivorsAreStamped(r, r', now, f, g);
    }
  }

  lemma InfoIsLeft(t: Tables, u: Tables, healthy: set<Id>, i: Id)
    requires Consistent(u) && BareInfos(u) == {}
    requires forall l :: l in u.links <==> l in t.links && l.file in healthy
    ensures i in u.narinfos <==> exists l :: l in t.links && l.info == i && l.file in healthy
  {
    if i in u.narinfos {
      assert i !in BareInfos(u);
      var l :| l in u.links && l.info == i;
    }
  }

  lemma FileIsLeft(t: Tables, u: Tables, healthy: set<Id>, f: Id)
    requires Consistent(u) && OrphanFiles(u) == {}
    requires forall l :: l in u.links <==> l in t.links && l.file in healthy
    ensures f in u.narFiles <==> f in healthy && exists l :: l in t.links && l.file == f
  {
    if f in u.narFiles {
      assert f !in OrphanFiles(u);
      var l :| l in u.links && l.file == f;
    }
  }

  lemma UsedChunksStay(u: Tables)
    requires Consistent(u) && OrphanChunks(u) == {}
    ensures forall h :: h in u.chunks <==> exists s :: s in u.slots && u.slots[s] == h
  {
    forall h | h in u.chunks
      ensures exists s :: s in u.slots && u.slots[s] == h
    {
      assert h !in OrphanChunks(u);
    }
  }

  lemma SurvivorsAreStamped(r: Repo, r': Repo, now: nat, f: Findings, g: Id)
    requires Consistent(r.db) && Round(r, r', now, f) && g in r'.db.narFiles && g in r.db.narFiles && Healthy(r, g)
    ensures r'.db.narFiles[g] == r.db.narFiles[g].(verifiedAt := Some(now))
  {
    var s := Stamp(r, now);
    HealthyIsStamped(r, now, g);
    StampPrunes(r, now);
    if !NoIssues(f) {
      RepairKeepsColumns(s, f);
    }
  }

  lemma HealthyIsStamped(r: Repo, now: nat, g: Id)
    requires g in r.db.narFiles && Healthy(r, g)
    ensures g in Stamp(r, now).db.narFiles
    ensures Stamp(r, now).db.narFiles[g] == r.db.narFiles[g].(verifiedAt := Some(now))
  {
    HealthyIffServable(r, g);
    CategoriesInColumns(r, g);
  }

  ghost predicate KeepsColumns(t: Tables, u: Tables) {
    forall g :: g in u.narFiles ==> g in t.narFiles && u.narFiles[g] == t.narFiles[g]
  }

  lemma WholeFilePassesKeepColumns(r: Repo, f: Findings)
    requires Consistent(r.db)
    ensures KeepsColumns(r.db, RepairWholeFiles(r, f).db)
  {
    var r2 := RepairLinks(r, f);
    assert KeepsColumns(r.db, r2.db);
    LinkPassesPrune(r, f);
    DeleteFilesAndInfosPrunes(r2.db, FilesWithKeys(r2.db, set s | s in f.missingFiles && s.key !in r2.nars :: s.key));
  }

  lemma ChunkPassesKeepColumns(r: Repo, f: Findings)
    requires Consistent(r.db)
    ensures KeepsColumns(r.db, RepairChunks(r, f).db)
  {
    var r1 := r.(db := DropOrphanChunks(r.db, f.orphanChunks));
    OrphanChunkPassPrunes(r, f.orphanChunks);
    CascadePrunes(r1, FilesWithKeys(r1.db, set s | s in f.brokenFiles && ChunksBroken(r1, s.id, s.totalChunks) :: s.key));
    var r2 := DropBrokenFiles(r1, f.brokenFiles);
    CascadePrunes(r2, FilesWithKeys(r2.db, set s | s in f.mismatchedFiles && s.id in SizeMismatches(r2.db) :: s.key));
  }

  /** A repair changes no column of a nar_file that it keeps. */
  lemma RepairKeepsColumns(r: Repo, f: Findings)
    requires Consistent(r.db)
    ensures KeepsColumns(r.db, Repair(r, f).db)
  {
    WholeFilePassesKeepColumns(r, f);
    WholeFilePassesPrune(r, f);
    ChunkPassesKeepColumns(RepairWholeFiles(r, f), f);
  }

  // ---------------------------------------------------------------- the stores

  /** A pass takes a chunk's record and file together, or neither. */
  ghost predicate TakesBoth(r: Repo, r': Repo) {
    && r'.db.chunks <= r.db.chunks
    && forall h :: h in r.chunkFiles ==> (h in r'.chunkFiles <==> (h in r.db.chunks ==> h in r'.db.chunks))
  }

  lemma SweepTakesBoth(r: Repo, t: Tables)
    requires t.chunks == r.db.chunks
    ensures TakesBoth(r, SweepChunks(r.(db := t)))
  {}

  lemma BrokenPassTakesBoth(r: Repo, suspects: seq<Suspect>)
    ensures TakesBoth(r, DropBrokenFiles(r, suspects))
  {
    var keys := set s | s in suspects && ChunksBroken(r, s.id, s.totalChunks) :: s.key;
    SweepTakesBoth(r, DeleteFilesAndInfos(r.db, FilesWithKeys(r.db, keys)));
  }

  lemma MismatchPassTakesBoth(r: Repo, suspects: seq<Suspect>)
    ensures TakesBoth(r, DropMismatchedFiles(r, suspects))
  {
    if suspects != [] {
      var keys := set s | s in suspects && s.id in SizeMismatches(r.db) :: s.key;
      SweepTakesBoth(r, DeleteFilesAndInfos(r.db, FilesWithKeys(r.db, keys)));
    }
  }

  /** Which chunk files the chunk passes leave, for findings that list no known chunk as stray. */
  lemma ChunkFilesAfter(r: Repo, f: Findings, h: Hash)
    requires h in r.chunkFiles && (h in f.strayChunks ==> h !in r.db.chunks)
    ensures h in RepairChunks(r, f).chunkFiles <==>
      if h in r.db.chunks then (h in f.orphanChunks && h in OrphanChunks(r.db)) || h in RepairChunks(r, f).db.chunks
      else h !in f.strayChunks
  {
    var r1 := r.(db := DropOrphanChunks(r.db, f.orphanChunks));
    var r2 := DropBrokenFiles(r1, f.brokenFiles);
    var r3 := DropMismatchedFiles(r2, f.mismatchedFiles);
    BrokenPassTakesBoth(r1, f.brokenFiles);
    MismatchPassTakesBoth(r2, f.mismatchedFiles);
    OrphanChunkFiles(r, r1, r3, f, h);
  }

  lemma OrphanChunkFiles(r: Repo, r1: Repo, r3: Repo, f: Findings, h: Hash)
    requires r1 == r.(db := DropOrphanChunks(r.db, f.orphanChunks)) && h in r.chunkFiles
    requires h in f.strayChunks ==> h !in r.db.chunks
    requires r3.db.chunks <= r1.db.chunks && (h in r3.chunkFiles <==> (h in r1.db.chunks ==> h in r3.db.chunks))
    ensures h in DropStrayChunks(r3, f.strayChunks).chunkFiles <==>
      if h in r.db.chunks then (h in f.orphanChunks && h in OrphanChunks(r.db)) || h in r3.db.chunks
      else h !in f.strayChunks
  {}

  /** Repairs up to the chunk passes leave chunks and chunk files alone, and lists of unused ones stay right. */
  lemma WholeFilePassesLeaveChunks(r: Repo, f: Findings)
    requires Consistent(r.db)
    ensures RepairWholeFiles(r, f).chunkFiles == r.chunkFiles && RepairWholeFiles(r, f).db.chunks == r.db.chunks
    ensures OrphanChunks(r.db) <= OrphanChunks(RepairWholeFiles(r, f).db)
  {
    var r' := RepairWholeFiles(r, f);
    WholeFilePassesPrune(r, f);
    forall s | s in r'.db.slots
      ensures r'.db.slots[s] in r.db.slots.Values
    {
      assert s in r.db.slots;
    }
  }

  lemma ChunkFilesAreLeft(r: Repo, f: Findings, h: Hash)
    requires Consistent(r.db) && Collected(r, f) && h in r.chunkFiles
    ensures h in Repair(r, f).chunkFiles <==> h in r.db.chunks && (h in OrphanChunks(r.db) || h in Repair(r, f).db.chunks)
  {
    WholeFilePassesLeaveChunks(r, f);
    WholeFilePassesPrune(r, f);
    ChunkFilesAfter(RepairWholeFiles(r, f), f, h);
  }

  lemma RepairRemovesFiles(r: Repo, f: Findings)
    requires Consistent(r.db)
    ensures Repair(r, f).chunkFiles <= r.chunkFiles
    ensures forall k :: k in Repair(r, f).nars ==> k in r.nars
  {
    RepairPrunes(r, f);
  }

  /** A whole file goes exactly if no nar_file named it when the round began. */
  lemma NarsAreLeft(r: Repo, r': Repo, now: nat, f: Findings, k: NarKey)
    requires Consistent(r.db) && Round(r, r', now, f) && k in r.nars
    ensures k in r'.nars <==> exists g :: g in r.db.narFiles && r.db.narFiles[g].key == k
  {
    var s := Stamp(r, now);
    StampPrunes(r, now);
    if g :| g in r.db.narFiles && r.db.narFiles[g].key == k {
      StoredNarStays(r, r', now, f, g);
    } else {
      assert FilesWithKey(s.db, k) == {};
      assert k in StrayNars(s) && k in f.strayNars;
      var r3 := DropMissingFiles(RepairLinks(s, f), f.missingFiles);
      NoKeyAppears(s, f, k);
    }
  }

  lemma NoKeyAppears(r: Repo, f: Findings, k: NarKey)
    requires Consistent(r.db) && FilesWithKey(r.db, k) == {} && k in f.strayNars
    ensures k !in Repair(r, f).nars
  {
    var r3 := DropMissingFiles(RepairLinks(r, f), f.missingFiles);
    LinkPassesPrune(r, f);
    MissingPassPrunes(RepairLinks(r, f), f.missingFiles);
    forall g | g in r3.db.narFiles
      ensures r3.db.narFiles[g].key != k
    {
      assert g in r.db.narFiles && g !in FilesWithKey(r.db, k);
    }
    assert FilesWithKey(r3.db, k) == {};
  }

  lemma FilesAreLeft(r: Repo, r': Repo, now: nat, f: Findings)
    requires Consistent(r.db) && Round(r, r', now, f) && RowsLeft(r, r', now)
    ensures FilesLeft(r, r')
  {
    RoundPrunes(r, r', now, f);
    forall k | k in r.nars
      ensures k in r'.nars <==> exists g :: g in r.db.narFiles && r.db.narFiles[g].key == k
    {
      NarsAreLeft(r, r', now, f, k);
    }
    forall h | h in r.chunkFiles
      ensures h in r'.chunkFiles <==>
        h in r.db.chunks && (h in OrphanChunks(r.db) || h in r'.db.chunks)
    {
      ChunkFileIsLeft(r, r', now, f, h);
    }
    forall h | h in r.db.chunks
      ensures h in OrphanChunks(r.db) <==> forall s :: s in r.db.slots ==> r.db.slots[s] != h
    {}
  }

  lemma ChunkFileIsLeft(r: Repo, r': Repo, now: nat, f: Findings, h: Hash)
    requires Consistent(r.db) && Round(r, r', now, f) && h in r.chunkFiles
    ensures h in r'.chunkFiles <==> h in r.db.chunks && (h in OrphanChunks(r.db) || h in r'.db.chunks)
  {
    var s := Stamp(r, now);
    StampPrunes(r, now);
    if NoIssues(f) {
      assert h !in StrayChunks(s);
    } else {
      ChunkFilesAreLeft(s, f, h);
    }
  }

  /** The whole outcome of a round: every row of every table, and every file of both stores. */
  lemma RoundOutcome(r: Repo, r': Repo, now: nat, f: Findings)
    requires Consistent(r.db) && Round(r, r', now, f)
    ensures RowsLeft(r, r', now) && FilesLeft(r, r')
  {
    RowsAreLeft(r, r', now, f);
    FilesAreLeft(r, r', now, f);
  }
}
