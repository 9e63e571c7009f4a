/** What repeated fsck rounds converge to, with nothing else running. */
module FsckFixpoint {
  import opened Collections
  import opened Database
  import opened Repository
  import opened Fsck

  /** Every narinfo has a nar_file and every nar_file a narinfo. */
  ghost predicate Tidy(t: Tables) { BareInfos(t) == {} && OrphanFiles(t) == {} }

  lemma BarePassTidies(t: Tables, ids: seq<Id>)
    requires Consistent(t) && forall i :: i in ids <==> i in BareInfos(t)
    ensures var u := DropBareInfos(t, ids);
      BareInfos(u) == {} && u.links == t.links && u.narFiles == t.narFiles
  {
    assert forall i :: i in BareInfos(t) ==> FilesOf(t, i) == {};
    assert forall l :: l in t.links ==> l.file in FilesOf(t, l.info);
    var u := DropBareInfos(t, ids);
    assert u.links == t.links;
  }

  lemma OrphanPassTidies(t: Tables, suspects: seq<Suspect>)
    requires Consistent(t) && BareInfos(t) == {} && Lists(t, suspects, OrphanFiles(t))
    ensures Tidy(DropOrphanFiles(t, suspects))
  {
    var u := DropOrphanFiles(t, suspects);
    forall o | o in OrphanFiles(t)
      ensures o !in u.narFiles
    {
      var s := SuspectOf(t, o);
      assert s in suspects;
      assert FilesWithKey(t, s.key) == {o};
    }
    forall l | l in t.links
      ensures l in u.links
    {
      assert l.file in FilesWithKey(t, t.narFiles[l.file].key) * LinkedFiles(t);
    }
    assert u.links == t.links;
  }

  lemma LinkPassesTidy(r: Repo, f: Findings)
    requires Consistent(r.db) && Collected(r, f)
    ensures Tidy(RepairLinks(r, f).db)
  {
    var t := DropBareInfos(r.db, f.bareInfos);
    BarePassTidies(r.db, f.bareInfos);
    assert OrphanFiles(t) == OrphanFiles(r.db);
    SameFilesSameLists(r.db, t, f.orphanFiles, OrphanFiles(t));
    OrphanPassTidies(t, f.orphanFiles);
  }

  lemma SameFilesSameLists(t: Tables, u: Tables, suspects: seq<Suspect>, ids: set<Id>)
    requires u.narFiles == t.narFiles && Lists(t, suspects, ids)
    ensures Lists(u, suspects, ids)
  {
    assert forall f :: f in t.narFiles ==> SuspectOf(u, f) == SuspectOf(t, f);
  }

  lemma CascadeKeepsTidy(t: Tables, files: set<Id>)
    requires Consistent(t) && Tidy(t)
    ensures Tidy(DeleteFilesAndInfos(t, files))
  {
    var u := DeleteFiles(t, files);
    var v := DeleteFilesAndInfos(t, files);
    forall f | f in v.narFiles
      ensures f in LinkedFiles(v)
    {
      assert f !in files && f !in OrphanFiles(t);
      var l :| l in t.links && l.file == f;
      assert l in u.links;
      assert l.info in LinkedInfos(u);
      assert l in v.links;
    }
    forall i | i in v.narinfos
      ensures i in LinkedInfos(v)
    {
      assert i in u.narinfos && i !in BareInfos(u);
      var l :| l in u.links && l.info == i;
      assert l in v.links;
    }
  }

  // ---------------------------------------------------------------- one round empties the database side

  lemma MissingPassEmpties(r0: Repo, r: Repo, suspects: seq<Suspect>)
    requires Consistent(r.db) && Prunes(r0, r) && Lists(r0.db, suspects, MissingFiles(r0))
    ensures MissingFiles(DropMissingFiles(r, suspects)) == {}
  {
    var r' := DropMissingFiles(r, suspects);
    MissingPassPrunes(r, suspects);
    PruningShrinksIssues(r0, r);
    PruningShrinksIssues(r, r');
    forall f | f in MissingFiles(r)
      ensures f !in r'.db.narFiles
    {
      assert SuspectOf(r0.db, f) in suspects;
    }
  }

  lemma BrokenPassEmpties(r0: Repo, r: Repo, suspects: seq<Suspect>)
    requires Consistent(r.db) && Prunes(r0, r) && Lists(r0.db, suspects, BrokenFiles(r0))
    ensures BrokenFiles(DropBrokenFiles(r, suspects)) == {}
  {
    var keys := set s | s in suspects && ChunksBroken(r, s.id, s.totalChunks) :: s.key;
    var r' := DropBrokenFiles(r, suspects);
    CascadePrunes(r, FilesWithKeys(r.db, keys));
    PruningShrinksIssues(r0, r);
    PruningShrinksIssues(r, r');
    forall f | f in BrokenFiles(r)
      ensures f !in r'.db.narFiles
    {
      var s := SuspectOf(r0.db, f);
      assert s in suspects && s.key in keys;
    }
  }

  lemma MismatchPassEmpties(r0: Repo, r: Repo, suspects: seq<Suspect>)
    requires Consistent(r.db) && Prunes(r0, r) && Lists(r0.db, suspects, SizeMismatches(r0.db))
    ensures SizeMismatches(DropMismatchedFiles(r, suspects).db) == {}
  {
    var r' := DropMismatchedFiles(r, suspects);
    MismatchPassPrunes(r, suspects);
    PruningShrinksIssues(r0, r);
    PruningShrinksIssues(r, r');
    forall f | f in SizeMismatches(r.db)
      ensures f !in r'.db.narFiles
    {
      var s := SuspectOf(r0.db, f);
      assert s in suspects;
      var keys := set s | s in suspects && s.id in SizeMismatches(r.db) :: s.key;
      assert s.key in keys;
      CascadePrunes(r, FilesWithKeys(r.db, keys));
    }
  }

  lemma WholeFilePassesClean(r: Repo, f: Findings)
    requires Consistent(r.db) && Collected(r, f)
    ensures var r' := RepairWholeFiles(r, f); Tidy(r'.db) && MissingFiles(r') == {}
  {
    var r2 := RepairLinks(r, f);
    LinkPassesPrune(r, f);
    LinkPassesTidy(r, f);
    MissingPassClean(r, r2, f);
    var r3 := DropMissingFiles(r2, f.missingFiles);
    MissingPassPrunes(r2, f.missingFiles);
    StrayNarPassPrunes(r3, f.strayNars);
    PruningShrinksIssues(r3, DropStrayNars(r3, f.strayNars));
  }

  lemma MissingPassClean(r0: Repo, r: Repo, f: Findings)
    requires Consistent(r0.db) && Collected(r0, f) && Consistent(r.db) && Prunes(r0, r) && Tidy(r.db)
    ensures var r' := DropMissingFiles(r, f.missingFiles); Tidy(r'.db) && MissingFiles(r') == {}
  {
    var keys := set s | s in f.missingFiles && s.key !in r.nars :: s.key;
    CascadeKeepsTidy(r.db, FilesWithKeys(r.db, keys));
    MissingPassEmpties(r0, r, f.missingFiles);
  }

  lemma BrokenPassClean(r0: Repo, r: Repo, f: Findings)
    requires Consistent(r0.db) && Collected(r0, f) && Consistent(r.db) && Prunes(r0, r) && Tidy(r.db)
    ensures var r' := DropBrokenFiles(r, f.brokenFiles);
      Tidy(r'.db) && OrphanChunks(r'.db) == {} && BrokenFiles(r') == {}
  {
    var keys := set s | s in f.brokenFiles && ChunksBroken(r, s.id, s.totalChunks) :: s.key;
    CascadeKeepsTidy(r.db, FilesWithKeys(r.db, keys));
    BrokenPassPrunes(r, f.brokenFiles);
    BrokenPassEmpties(r0, r, f.brokenFiles);
  }

  lemma MismatchPassClean(r0: Repo, r: Repo, f: Findings)
    requires Consistent(r0.db) && Collected(r0, f) && Consistent(r.db) && Prunes(r0, r)
    requires Tidy(r.db) && OrphanChunks(r.db) == {} && BrokenFiles(r) == {}
    ensures var r' := DropMismatchedFiles(r, f.mismatchedFiles);
      Tidy(r'.db) && OrphanChunks(r'.db) == {} && BrokenFiles(r') == {} && SizeMismatches(r'.db) == {}
  {
    var keys := set s | s in f.mismatchedFiles && s.id in SizeMismatches(r.db) :: s.key;
    CascadeKeepsTidy(r.db, FilesWithKeys(r.db, keys));
    MismatchPassPrunes(r, f.mismatchedFiles);
    MismatchPassEmpties(r0, r, f.mismatchedFiles);
    PruningShrinksIssues(r, DropMismatchedFiles(r, f.mismatchedFiles));
  }

  lemma ChunkPassesClean(r0: Repo, r: Repo, f: Findings)
    requires Consistent(r0.db) && Collected(r0, f) && Prunes(r0, r)
    requires Tidy(r.db) && MissingFiles(r) == {}
    ensures RowsClean(RepairChunks(r, f))
  {
    var r1 := r.(db := DropOrphanChunks(r.db, f.orphanChunks));
    OrphanChunkPassPrunes(r, f.orphanChunks);
    PrunesTransitive(r0, r, r1);
    BrokenPassClean(r0, r1, f);
    var r2 := DropBrokenFiles(r1, f.brokenFiles);
    BrokenPassPrunes(r1, f.brokenFiles);
    PrunesTransitive(r0, r1, r2);
    MismatchPassClean(r0, r2, f);
    var r3 := DropMismatchedFiles(r2, f.mismatchedFiles);
    MismatchPassPrunes(r2, f.mismatchedFiles);
    StrayChunkPassPrunes(r3, f.strayChunks);
    PruningShrinksIssues(r3, DropStrayChunks(r3, f.strayChunks));
    ChunkPassesPrune(r, f);
    PruningShrinksIssues(r, RepairChunks(r, f));
  }

  /** One repair empties every issue category that lives in the database. */
  lemma RepairCleansRows(r: Repo, f: Findings)
    requires Consistent(r.db) && Collected(r, f)
    ensures RowsClean(Repair(r, f))
  {
    WholeFilePassesPrune(r, f);
    WholeFilePassesClean(r, f);
    ChunkPassesClean(r, RepairWholeFiles(r, f), f);
  }

  // ---------------------------------------------------------------- two rounds empty everything

  lemma StampKeepsIssues(r: Repo, now: nat)
    requires Consistent(r.db)
    ensures var s := Stamp(r, now);
      && Consistent(s.db)
      && (RowsClean(s) <==> RowsClean(r)) && (Clean(s) <==> Clean(r))
  {
    StampKeepsQueries(r, r.db.narFiles.Keys - MissingFiles(r) - BrokenFiles(r) - SizeMismatches(r.db), now);
  }

  lemma DeleteNothing(t: Tables)
    ensures DeleteInfos(t, {}) == t && DeleteFiles(t, {}) == t && DeleteChunks(t, {}) == t
  {
    assert DeleteInfos(t, {}).links == t.links && DeleteInfos(t, {}).narinfos == t.narinfos;
    assert DeleteFiles(t, {}).narFiles == t.narFiles;
    assert DeleteFiles(t, {}).links == t.links && DeleteFiles(t, {}).slots == t.slots;
    assert DeleteChunks(t, {}).chunks == t.chunks && DeleteChunks(t, {}).slots == t.slots;
  }

  lemma CascadeOfNothing(r: Repo)
    requires OrphanChunks(r.db) == {}
    ensures SweepChunks(r.(db := DeleteFilesAndInfos(r.db, {}))) == r
  {
    DeleteNothing(r.db);
  }

  lemma OnlyStraysListed(r: Repo, f: Findings)
    requires RowsClean(r) && Collected(r, f)
    ensures f.bareInfos == [] && f.orphanFiles == [] && f.missingFiles == []
    ensures f.orphanChunks == [] && f.brokenFiles == [] && f.mismatchedFiles == []
  {
    HeadIsMember(f.bareInfos);
    HeadIsMember(f.orphanFiles);
    HeadIsMember(f.missingFiles);
    HeadIsMember(f.orphanChunks);
    HeadIsMember(f.brokenFiles);
    HeadIsMember(f.mismatchedFiles);
  }

  lemma IdleWholeFilePasses(r: Repo, f: Findings)
    requires f.bareInfos == [] && f.orphanFiles == [] && f.missingFiles == []
    ensures RepairWholeFiles(r, f) == DropStrayNars(r, f.strayNars)
  {
    DeleteNothing(r.db);
    assert (set i | i in f.bareInfos && FilesOf(r.db, i) == {}) == {};
    assert RepairLinks(r, f) == r by {
      assert FilesWithKeys(r.db, set s | s in f.orphanFiles && Unlinked(r.db, s.key) :: s.key) == {};
    }
    assert FilesWithKeys(r.db, set s | s in f.missingFiles && s.key !in r.nars :: s.key) == {};
  }

  lemma IdleChunkPasses(r: Repo, f: Findings)
    requires f.orphanChunks == [] && f.brokenFiles == [] && f.mismatchedFiles == []
    requires OrphanChunks(r.db) == {}
    ensures RepairChunks(r, f) == DropStrayChunks(r, f.strayChunks)
  {
    DeleteNothing(r.db);
    assert (set h | h in f.orphanChunks && h in OrphanChunks(r.db)) == {};
    assert FilesWithKeys(r.db, set s | s in f.brokenFiles && ChunksBroken(r, s.id, s.totalChunks) :: s.key) == {};
    CascadeOfNothing(r);
  }

  /** On a repository whose rows are in order, a repair removes the stray files and nothing else. */
  lemma RepairOnCleanRows(r: Repo, f: Findings)
    requires RowsClean(r) && Collected(r, f)
    ensures Repair(r, f) == r.(nars := r.nars - StrayNars(r), chunkFiles := r.chunkFiles - StrayChunks(r))
  {
    OnlyStraysListed(r, f);
    IdleWholeFilePasses(r, f);
    assert (set k | k in f.strayNars && FilesWithKey(r.db, k) == {}) == StrayNars(r);
    var r1 := DropStrayNars(r, f.strayNars);
    IdleChunkPasses(r1, f);
    assert r.chunkFiles - (set h | h in f.strayChunks && h !in r.db.chunks) == r.chunkFiles - StrayChunks(r);
  }

  /** One round empties every database-side category. */
  lemma RoundCleansRows(r: Repo, r': Repo, now: nat, f: Findings)
    requires Consistent(r.db) && Round(r, r', now, f)
    ensures Consistent(r'.db) && RowsClean(r')
  {
    var s := Stamp(r, now);
    StampKeepsIssues(r, now);
    if !NoIssues(f) {
      RepairCleansRows(s, f);
      RepairPrunes(s, f);
    }
  }

  /** Two rounds empty every category. */
  lemma TwoRoundsCleanEverything(r: Repo, r1: Repo, r2: Repo, t1: nat, f1: Findings, t2: nat, f2: Findings)
    requires Consistent(r.db) && Round(r, r1, t1, f1) && Round(r1, r2, t2, f2)
    ensures Clean(r2)
  {
    RoundCleansRows(r, r1, t1, f1);
    RoundCleansRows(r1, r2, t2, f2);
    var s := Stamp(r1, t2);
    StampKeepsIssues(r1, t2);
    if !NoIssues(f2) {
      RepairOnCleanRows(s, f2);
    }
  }

  /** A round on a clean repository changes nothing but verified_at. */
  lemma CleanRoundOnlyStamps(r: Repo, r': Repo, now: nat, f: Findings)
    requires Consistent(r.db) && Clean(r) && Round(r, r', now, f)
    ensures r' == Stamp(r, now) && Clean(r')
    ensures NoIssues(f)
  {
    var s := Stamp(r, now);
    StampKeepsIssues(r, now);
    OnlyStraysListed(s, f);
    HeadIsMember(f.strayNars);
    HeadIsMember(f.strayChunks);
  }

  // ---------------------------------------------------------------- exactly the servable NARs survive

  ghost predicate CondemnedAsMismatched(t: Tables, suspects: seq<Suspect>, key: NarKey) {
    exists s :: s in suspects && s.key == key && s.id in SizeMismatches(t)
  }

  lemma MismatchPassSparesIff(r: Repo, suspects: seq<Suspect>, l: Link)
    requires Consistent(r.db) && l in r.db.links
    ensures l in DropMismatchedFiles(r, suspects).db.links <==>
            !CondemnedAsMismatched(r.db, suspects, r.db.narFiles[l.file].key)
  {
    CascadeSpares(r.db, set s | s in suspects && s.id in SizeMismatches(r.db) :: s.key, l);
  }

  /** Every pass decides by the nar_file: narinfos linked to the same one keep or lose it together. */
  lemma LinksShareFate(r: Repo, f: Findings, l: Link, m: Link)
    requires Consistent(r.db) && l in r.db.links && m in r.db.links && l.file == m.file
    requires l in Repair(r, f).db.links
    ensures m in Repair(r, f).db.links
  {
    var r4 := RepairWholeFiles(r, f);
    WholeFilePassesPrune(r, f);
    WholeFilePassesSpare(r, f, l);
    WholeFilePassesSpare(r, f, m);
    ChunkPassesPrune(r4, f);
    ChunkPassesShareFate(r4, f, l, m);
  }

  lemma ChunkPassesShareFate(r: Repo, f: Findings, l: Link, m: Link)
    requires Consistent(r.db) && l in r.db.links && m in r.db.links && l.file == m.file
    requires l in RepairChunks(r, f).db.links
    ensures m in RepairChunks(r, f).db.links
  {
    var r5 := r.(db := DropOrphanChunks(r.db, f.orphanChunks));
    OrphanChunkPassPrunes(r, f.orphanChunks);
    assert r5.db.links == r.db.links;
    BrokenPassSpares(r5, f.brokenFiles, l);
    BrokenPassSpares(r5, f.brokenFiles, m);
    var r6 := DropBrokenFiles(r5, f.brokenFiles);
    BrokenPassPrunes(r5, f.brokenFiles);
    MismatchPassPrunes(r6, f.mismatchedFiles);
    if m in r6.db.links && l in r6.db.links {
      MismatchPassSparesIff(r6, f.mismatchedFiles, l);
      MismatchPassSparesIff(r6, f.mismatchedFiles, m);
    }
  }

  /** After a round, a nar_file that is still there is servable. */
  lemma CleanRowsAreServable(r: Repo, file: Id)
    requires RowsClean(r) && file in r.db.narFiles
    ensures Servable(r, file)
  {
    assert file !in MissingFiles(r) && file !in BrokenFiles(r) && file !in SizeMismatches(r.db);
  }

  lemma SurvivorWasServable(r: Repo, r': Repo, now: nat, f: Findings, l: Link)
    requires Consistent(r.db) && Round(r, r', now, f) && l in r.db.links && l in r'.db.links
    ensures Servable(r, l.file)
  {
    var s := Stamp(r, now);
    RoundCleansRows(r, r', now, f);
    CleanRowsAreServable(r', l.file);
    RoundPrunes(r, r', now, f);
    PruningKeepsRows(r, r', l.file);
    forall m | m in r.db.links && m.file == l.file
      ensures !Mismatched(r.db, m)
    {
      if !NoIssues(f) {
        LinksShareFate(s, f, l, m);
      }
      assert m in r'.db.links;
      NotMismatchedBefore(r, r', m);
    }
    NoneMismatched(r.db, l.file);
  }

  lemma NotMismatchedBefore(a: Repo, b: Repo, m: Link)
    requires Prunes(a, b) && m in b.db.links && SizeMismatches(b.db) == {}
    ensures !Mismatched(a.db, m)
  {
    assert m.file !in SizeMismatches(b.db);
    assert !Mismatched(b.db, m);
  }

  lemma NoneMismatched(t: Tables, file: Id)
    requires forall m :: m in t.links && m.file == file ==> !Mismatched(t, m)
    ensures file !in SizeMismatches(t)
  {}

  lemma RoundPrunes(r: Repo, r': Repo, now: nat, f: Findings)
    requires Consistent(r.db) && Round(r, r', now, f)
    ensures Prunes(r, r') && Prunes(r, Stamp(r, now))
  {
    var s := Stamp(r, now);
    StampPrunes(r, now);
    if !NoIssues(f) {
      RepairPrunes(s, f);
      PrunesTransitive(r, s, r');
    }
  }

  /** A round keeps a linked nar_file if and only if it is servable. */
  lemma RoundKeepsIffServable(r: Repo, r': Repo, now: nat, f: Findings, l: Link)
    requires Consistent(r.db) && Round(r, r', now, f) && l in r.db.links
    ensures l in r'.db.links <==> Servable(r, l.file)
  {
    if Servable(r, l.file) {
      ServableNarSurvivesRound(r, r', now, f, l);
    }
    if l in r'.db.links {
      SurvivorWasServable(r, r', now, f, l);
    }
  }

  /** ... and so do any number of rounds, judged by the state before the first one. */
  lemma {:induction false} RoundsKeepIffServable(h: History, l: Link)
    requires Rounds(h) && h.Then? && Consistent(Initial(h).db) && l in Initial(h).db.links
    ensures Consistent(Latest(h).db)
    ensures l in Latest(h).db.links <==> Servable(Initial(h), l.file)
  {
    if h.past.Start? {
      RoundKeepsIffServable(h.past.first, h.latest, h.now, h.findings, l);
      RoundPrunes(h.past.first, h.latest, h.now, h.findings);
    } else {
      RoundsKeepIffServable(h.past, l);
      RoundPrunes(Latest(h.past), h.latest, h.now, h.findings);
      if Servable(Initial(h), l.file) {
        ServableNarSurvivesRounds(h, l);
      }
    }
  }

  /**
   A whole file in the NAR store does not make a chunked nar_file servable: if its chunks are broken, the first round
   deletes the nar_file and the second one the file.
   */
  lemma StoredFileOfBrokenNarIsLost(
    r: Repo, r1: Repo, r2: Repo, t1: nat, f1: Findings, t2: nat, f2: Findings, l: Link)
    requires Consistent(r.db) && Round(r, r1, t1, f1) && Round(r1, r2, t2, f2) && l in r.db.links
    requires var row := r.db.narFiles[l.file];
      row.key in r.nars && row.totalChunks > 0 && ChunksBroken(r, l.file, row.totalChunks)
    ensures l !in r1.db.links && r.db.narFiles[l.file].key in StrayNars(r1)
    ensures r.db.narFiles[l.file].key !in r2.nars
  {
    var key := r.db.narFiles[l.file].key;
    RoundKeepsIffServable(r, r1, t1, f1, l);
    RoundPrunes(r, r1, t1, f1);
    RoundCleansRows(r, r1, t1, f1);
    BrokenFileGoes(r, r1, l.file);
    StoredNarStays(r, r1, t1, f1, l.file);
    StraysGo(r1, r2, t2, f2, key);
  }

  lemma BrokenFileGoes(a: Repo, b: Repo, file: Id)
    requires Consistent(a.db) && Prunes(a, b) && RowsClean(b) && file in a.db.narFiles
    requires a.db.narFiles[file].totalChunks > 0 && ChunksBroken(a, file, a.db.narFiles[file].totalChunks)
    ensures file !in b.db.narFiles && FilesWithKey(b.db, a.db.narFiles[file].key) == {}
  {
    if file in b.db.narFiles {
      CleanRowsAreServable(b, file);
      PruningKeepsRows(a, b, file);
      assert false;
    }
    assert forall g :: g in FilesWithKey(b.db, a.db.narFiles[file].key) ==> g == file;
  }

  lemma StoredNarStays(r: Repo, r': Repo, now: nat, f: Findings, file: Id)
    requires Consistent(r.db) && Round(r, r', now, f) && file in r.db.narFiles && r.db.narFiles[file].key in r.nars
    ensures r.db.narFiles[file].key in r'.nars
  {
    var s, key := Stamp(r, now), r.db.narFiles[file].key;
    assert file in FilesWithKey(s.db, key);
    assert key !in f.strayNars;
    if !NoIssues(f) {
      StoreKeepsListedNars(s, f, key);
    }
  }

  lemma StraysGo(r: Repo, r': Repo, now: nat, f: Findings, key: NarKey)
    requires Consistent(r.db) && RowsClean(r) && Round(r, r', now, f) && key in StrayNars(r)
    ensures key !in r'.nars
  {
    var s := Stamp(r, now);
    StampKeepsIssues(r, now);
    StampKeepsQueries(r, r.db.narFiles.Keys - MissingFiles(r) - BrokenFiles(r) - SizeMismatches(r.db), now);
    assert key in f.strayNars;
    RepairOnCleanRows(s, f);
  }

  // ---------------------------------------------------------------- the claims are as strong as they can be

  /** One round is not enough: dropping an orphaned record leaves its stored file for the next round. */
  lemma OrphanRecordLeavesStray(r: Repo, r': Repo, now: nat, f: Findings, o: Id)
    requires Consistent(r.db) && Round(r, r', now, f)
    requires o in OrphanFiles(r.db) && r.db.narFiles[o].key in r.nars
    ensures r.db.narFiles[o].key in StrayNars(r')
  {
    var s := Stamp(r, now);
    var key := r.db.narFiles[o].key;
    StampPrunes(r, now);
    RoundCleansRows(r, r', now, f);
    assert o in FilesWithKey(s.db, key);
    assert o in OrphanFiles(s.db) && SuspectOf(s.db, o) in f.orphanFiles;
    assert Prunes(s, r') by { RepairPrunes(s, f); }
    StoreKeepsListedNars(s, f, key);
    NoOrphanReturns(s, r', o);
  }

  lemma NoOrphanReturns(a: Repo, b: Repo, o: Id)
    requires Consistent(a.db) && Prunes(a, b) && OrphanFiles(b.db) == {} && o in OrphanFiles(a.db)
    ensures FilesWithKey(b.db, a.db.narFiles[o].key) == {}
  {
    assert b.db.links <= a.db.links;
    assert LinkedFiles(b.db) <= LinkedFiles(a.db);
    assert forall g :: g in b.db.narFiles ==> g !in OrphanFiles(b.db);
    assert forall g :: g in FilesWithKey(b.db, a.db.narFiles[o].key) ==> g == o;
    assert o !in b.db.narFiles;
  }

  lemma StoreKeepsListedNars(r: Repo, f: Findings, key: NarKey)
    requires key in r.nars && key !in f.strayNars
    ensures key in Repair(r, f).nars
  {
    assert key in RepairWholeFiles(r, f).nars;
  }

  /**
   Findings that are out of date are not safe: a NAR reported missing while it was being chunked, and
   complete by the time of the repair, is deleted, because the re-check only looks for a whole file.
   */
  lemma StaleFindingDeletesServableNar(r: Repo, f: Findings, l: Link)
    requires Consistent(r.db) && l in r.db.links && Servable(r, l.file)
    requires var key := r.db.narFiles[l.file].key;
      NamesFile(r.db, f, l.file, key) && key !in r.nars && Suspect(l.file, key, 0) in f.missingFiles
    ensures l !in Repair(r, f).db.links
  {
    ServableNarSurvivesIff(r, f, l);
  }

  /** A broken NAR that was deleted and stored again since it was reported is deleted once more, although it is whole. */
  lemma StaleFindingDeletesRestoredNar(r: Repo, f: Findings, l: Link, s: Suspect)
    requires Consistent(r.db) && l in r.db.links && Servable(r, l.file)
    requires s in f.brokenFiles && s.key == r.db.narFiles[l.file].key && s.totalChunks > 0 && s.id !in r.db.narFiles
    requires NamesFile(r.db, f, l.file, s.key)
    ensures l !in Repair(r, f).db.links
  {
    NoFileNoRows(r.db, s.id);
    ServableNarSurvivesIff(r, f, l);
  }
}
