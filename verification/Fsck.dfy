/**
 fsck: collect suspects, re-verify them, repair them pass by pass. This module holds the meaning of
 the phases as functions; FsckCommand holds the loops and proves that they compute these functions.
 */
module Fsck {
  import opened Collections
  import opened Database
  import opened Repository

  /** The columns of a reported nar_file that later phases use. */
  datatype Suspect = Suspect(id: Id, key: NarKey, totalChunks: nat)

  datatype Findings = Findings(
    bareInfos: seq<Id>,
    orphanFiles: seq<Suspect>,
    missingFiles: seq<Suspect>,
    strayNars: seq<NarKey>,
    orphanChunks: seq<Hash>,
    brokenFiles: seq<Suspect>,
    mismatchedFiles: seq<Suspect>,
    strayChunks: seq<Hash>)

  predicate NoIssues(f: Findings) {
    && f.bareInfos == [] && f.orphanFiles == [] && f.missingFiles == [] && f.strayNars == []
    && f.orphanChunks == [] && f.brokenFiles == [] && f.mismatchedFiles == [] && f.strayChunks == []
  }

  // ---------------------------------------------------------------- issue categories

  function MissingFiles(r: Repo): set<Id> {
    set f | f in r.db.narFiles && r.db.narFiles[f].totalChunks == 0 && r.db.narFiles[f].key !in r.nars
  }

  function BrokenFiles(r: Repo): set<Id> {
    set f | f in r.db.narFiles && r.db.narFiles[f].totalChunks > 0
            && ChunksBroken(r, f, r.db.narFiles[f].totalChunks)
  }

  function StrayNars(r: Repo): set<NarKey> { set k | k in r.nars && FilesWithKey(r.db, k) == {} }

  function StrayChunks(r: Repo): set<Hash> { r.chunkFiles - r.db.chunks }

  ghost predicate RowsClean(r: Repo) {
    && BareInfos(r.db) == {} && OrphanFiles(r.db) == {} && OrphanChunks(r.db) == {}
    && MissingFiles(r) == {} && BrokenFiles(r) == {} && SizeMismatches(r.db) == {}
  }

  ghost predicate Clean(r: Repo) {
    RowsClean(r) && StrayNars(r) == {} && StrayChunks(r) == {}
  }

  function SuspectOf(t: Tables, f: Id): Suspect
    requires f in t.narFiles
  {
    Suspect(f, t.narFiles[f].key, t.narFiles[f].totalChunks)
  }

  ghost predicate Lists(t: Tables, suspects: seq<Suspect>, ids: set<Id>) {
    && (forall s :: s in suspects ==> s.id in ids && s.id in t.narFiles && s == SuspectOf(t, s.id))
    && (forall f :: f in ids && f in t.narFiles ==> SuspectOf(t, f) in suspects)
  }

  ghost predicate Genuine(t: Tables, suspects: seq<Suspect>, ids: set<Id>) {
    forall s :: s in suspects ==> s.id in ids && s.id in t.narFiles && s == SuspectOf(t, s.id)
  }

  /** Every issue of the repository is listed, and nothing else. */
  ghost predicate Collected(r: Repo, f: Findings) {
    && (forall i :: i in f.bareInfos <==> i in BareInfos(r.db))
    && Lists(r.db, f.orphanFiles, OrphanFiles(r.db))
    && Lists(r.db, f.missingFiles, MissingFiles(r))
    && (forall k :: k in f.strayNars <==> k in StrayNars(r))
    && (forall h :: h in f.orphanChunks <==> h in OrphanChunks(r.db))
    && Lists(r.db, f.brokenFiles, BrokenFiles(r))
    && Lists(r.db, f.mismatchedFiles, SizeMismatches(r.db))
    && (forall h :: h in f.strayChunks <==> h in StrayChunks(r))
  }

  /** Every nar_file listed is a genuine issue of its category; a partial list is allowed. */
  ghost predicate Sound(r: Repo, f: Findings) {
    && Genuine(r.db, f.missingFiles, MissingFiles(r))
    && Genuine(r.db, f.brokenFiles, BrokenFiles(r))
    && Genuine(r.db, f.mismatchedFiles, SizeMismatches(r.db))
  }

  // ---------------------------------------------------------------- repair, pass by pass

  function FilesWithKeys(t: Tables, keys: set<NarKey>): set<Id> {
    set f | f in t.narFiles && t.narFiles[f].key in keys
  }

  function DropBareInfos(t: Tables, ids: seq<Id>): Tables {
    DeleteInfos(t, set i | i in ids && FilesOf(t, i) == {})
  }

  predicate Unlinked(t: Tables, key: NarKey) { FilesWithKey(t, key) * LinkedFiles(t) == {} }

  function DropOrphanFiles(t: Tables, suspects: seq<Suspect>): Tables {
    DeleteFiles(t, FilesWithKeys(t, set s | s in suspects && Unlinked(t, s.key) :: s.key))
  }

  function DropMissingFiles(r: Repo, suspects: seq<Suspect>): Repo {
    var keys := set s | s in suspects && s.key !in r.nars :: s.key;
    r.(db := DeleteFilesAndInfos(r.db, FilesWithKeys(r.db, keys)))
  }

  function DropStrayNars(r: Repo, keys: seq<NarKey>): Repo {
    r.(nars := r.nars - (set k | k in keys && FilesWithKey(r.db, k) == {}))
  }

  function DropOrphanChunks(t: Tables, hashes: seq<Hash>): Tables {
    DeleteChunks(t, set h | h in hashes && h in OrphanChunks(t))
  }

  /** repairCDCNarFiles with isNarFileChunkBroken: the sweeps run even when nothing is broken. */
  function DropBrokenFiles(r: Repo, suspects: seq<Suspect>): Repo {
    var keys := set s | s in suspects && ChunksBroken(r, s.id, s.totalChunks) :: s.key;
    SweepChunks(r.(db := DeleteFilesAndInfos(r.db, FilesWithKeys(r.db, keys))))
  }

  /** repairSizeMismatchCDCNarFiles: returns at once on an empty list. */
  function DropMismatchedFiles(r: Repo, suspects: seq<Suspect>): Repo {
    if suspects == [] then r else
      var keys := set s | s in suspects && s.id in SizeMismatches(r.db) :: s.key;
      SweepChunks(r.(db := DeleteFilesAndInfos(r.db, FilesWithKeys(r.db, keys))))
  }

  function DropStrayChunks(r: Repo, hashes: seq<Hash>): Repo {
    r.(chunkFiles := r.chunkFiles - (set h | h in hashes && h !in r.db.chunks))
  }

  /** Sections a and b of repairFsckIssues. */
  function RepairLinks(r: Repo, f: Findings): Repo {
    r.(db := DropOrphanFiles(DropBareInfos(r.db, f.bareInfos), f.orphanFiles))
  }

  /** Sections a to d. */
  function RepairWholeFiles(r: Repo, f: Findings): Repo {
    DropStrayNars(DropMissingFiles(RepairLinks(r, f), f.missingFiles), f.strayNars)
  }

  /** Sections e to g. */
  function RepairChunks(r: Repo, f: Findings): Repo {
    var r1 := r.(db := DropOrphanChunks(r.db, f.orphanChunks));
    DropStrayChunks(DropMismatchedFiles(DropBrokenFiles(r1, f.brokenFiles), f.mismatchedFiles), f.strayChunks)
  }

  function Repair(r: Repo, f: Findings): Repo { RepairChunks(RepairWholeFiles(r, f), f) }

  /** UpdateNarFileVerifiedAt, for a set of nar_files. */
  function StampFiles(t: Tables, files: set<Id>, now: nat): Tables {
    t.(narFiles := map f | f in t.narFiles ::
      if f in files then t.narFiles[f].(verifiedAt := Some(now)) else t.narFiles[f])
  }

  /** What phase 1 writes: verified_at on every nar_file it found in order. */
  function Stamp(r: Repo, now: nat): Repo {
    var passed := r.db.narFiles.Keys - MissingFiles(r) - BrokenFiles(r) - SizeMismatches(r.db);
    r.(db := StampFiles(r.db, passed, now))
  }

  /** One `fsck --repair` with nothing else running; `f` is what its first two phases report. */
  ghost predicate Round(r: Repo, r': Repo, now: nat, f: Findings) {
    var stamped := Stamp(r, now);
    Collected(stamped, f) && r' == if NoIssues(f) then stamped else Repair(stamped, f)
  }

  // ---------------------------------------------------------------- every pass prunes

  lemma LinkPassesPrune(r: Repo, f: Findings)
    requires Consistent(r.db)
    ensures Prunes(r, RepairLinks(r, f))
  {
    var t := DropBareInfos(r.db, f.bareInfos);
    DeleteInfosPrunes(r.db, set i | i in f.bareInfos && FilesOf(r.db, i) == {});
    DeleteFilesPrunes(t, FilesWithKeys(t, set s | s in f.orphanFiles && Unlinked(t, s.key) :: s.key));
    PrunesTransitive(r, r.(db := t), RepairLinks(r, f));
  }

  lemma WholeFilePassesPrune(r: Repo, f: Findings)
    requires Consistent(r.db)
    ensures Prunes(r, RepairWholeFiles(r, f))
  {
    var r2 := RepairLinks(r, f);
    LinkPassesPrune(r, f);
    var r3 := DropMissingFiles(r2, f.missingFiles);
    MissingPassPrunes(r2, f.missingFiles);
    PrunesTransitive(r, r2, r3);
    StrayNarPassPrunes(r3, f.strayNars);
    PrunesTransitive(r, r3, DropStrayNars(r3, f.strayNars));
  }

  lemma MissingPassPrunes(r: Repo, suspects: seq<Suspect>)
    requires Consistent(r.db)
    ensures Prunes(r, DropMissingFiles(r, suspects))
  {
    var keys := set s | s in suspects && s.key !in r.nars :: s.key;
    DeleteFilesAndInfosPrunes(r.db, FilesWithKeys(r.db, keys));
  }

  lemma StrayNarPassPrunes(r: Repo, keys: seq<NarKey>)
    requires Consistent(r.db)
    ensures Prunes(r, DropStrayNars(r, keys))
  {
    assert forall f :: f in r.db.narFiles ==> f in FilesWithKey(r.db, r.db.narFiles[f].key);
  }

  lemma OrphanChunkPassPrunes(r: Repo, hashes: seq<Hash>)
    requires Consistent(r.db)
    ensures Prunes(r, r.(db := DropOrphanChunks(r.db, hashes)))
  {
    DeleteUnusedChunksPrunes(r.db, set h | h in hashes && h in OrphanChunks(r.db));
  }

  /** Both chunked-file passes are a cascading delete of some files followed by the chunk sweep. */
  lemma CascadePrunes(r: Repo, files: set<Id>)
    requires Consistent(r.db)
    ensures var r' := SweepChunks(r.(db := DeleteFilesAndInfos(r.db, files)));
      && Prunes(r, r')
      && r'.db.narFiles == r.db.narFiles - files
      && OrphanChunks(r'.db) == {}
  {
    var r1 := r.(db := DeleteFilesAndInfos(r.db, files));
    DeleteFilesAndInfosPrunes(r.db, files);
    SweepChunksPrunes(r1);
    PrunesTransitive(r, r1, SweepChunks(r1));
  }

  lemma BrokenPassPrunes(r: Repo, suspects: seq<Suspect>)
    requires Consistent(r.db)
    ensures Prunes(r, DropBrokenFiles(r, suspects))
    ensures OrphanChunks(DropBrokenFiles(r, suspects).db) == {}
  {
    var keys := set s | s in suspects && ChunksBroken(r, s.id, s.totalChunks) :: s.key;
    CascadePrunes(r, FilesWithKeys(r.db, keys));
  }

  lemma MismatchPassPrunes(r: Repo, suspects: seq<Suspect>)
    requires Consistent(r.db)
    ensures Prunes(r, DropMismatchedFiles(r, suspects))
    ensures OrphanChunks(r.db) == {} ==> OrphanChunks(DropMismatchedFiles(r, suspects).db) == {}
  {
    if suspects == [] {
      PrunesReflexive(r);
    } else {
      var keys := set s | s in suspects && s.id in SizeMismatches(r.db) :: s.key;
      CascadePrunes(r, FilesWithKeys(r.db, keys));
    }
  }

  lemma StrayChunkPassPrunes(r: Repo, hashes: seq<Hash>)
    requires Consistent(r.db)
    ensures Prunes(r, DropStrayChunks(r, hashes))
  {}

  lemma ChunkPassesPrune(r: Repo, f: Findings)
    requires Consistent(r.db)
    ensures Prunes(r, RepairChunks(r, f))
  {
    var r1 := r.(db := DropOrphanChunks(r.db, f.orphanChunks));
    OrphanChunkPassPrunes(r, f.orphanChunks);
    var r2 := DropBrokenFiles(r1, f.brokenFiles);
    BrokenPassPrunes(r1, f.brokenFiles);
    PrunesTransitive(r, r1, r2);
    var r3 := DropMismatchedFiles(r2, f.mismatchedFiles);
    MismatchPassPrunes(r2, f.mismatchedFiles);
    PrunesTransitive(r, r2, r3);
    var r4 := DropStrayChunks(r3, f.strayChunks);
    StrayChunkPassPrunes(r3, f.strayChunks);
    PrunesTransitive(r, r3, r4);
  }

  /** Whatever its findings, a repair only prunes: no surviving row loses anything it depends on. */
  lemma RepairPrunes(r: Repo, f: Findings)
    requires Consistent(r.db)
    ensures Prunes(r, Repair(r, f))
  {
    WholeFilePassesPrune(r, f);
    ChunkPassesPrune(RepairWholeFiles(r, f), f);
    PrunesTransitive(r, RepairWholeFiles(r, f), Repair(r, f));
  }

  // ---------------------------------------------------------------- issues under pruning

  /** Pruning creates no missing, broken or size-mismatched nar_file. */
  lemma PruningShrinksIssues(a: Repo, b: Repo)
    requires Prunes(a, b)
    ensures MissingFiles(b) <= MissingFiles(a)
    ensures BrokenFiles(b) <= BrokenFiles(a)
    ensures SizeMismatches(b.db) <= SizeMismatches(a.db)
  {
    PruningKeepsMismatches(a, b);
    forall f | f in BrokenFiles(b)
      ensures f in BrokenFiles(a)
    {
      PruningKeepsRows(a, b, f);
    }
  }

  /** Marking rows verified changes no query and no category. */
  lemma StampKeepsQueries(r: Repo, files: set<Id>, now: nat)
    requires Consistent(r.db)
    ensures var s := r.(db := StampFiles(r.db, files, now));
      && Consistent(s.db) && s.db.narFiles.Keys == r.db.narFiles.Keys
      && BareInfos(s.db) == BareInfos(r.db) && OrphanFiles(s.db) == OrphanFiles(r.db)
      && OrphanChunks(s.db) == OrphanChunks(r.db) && StrayNars(s) == StrayNars(r)
      && MissingFiles(s) == MissingFiles(r) && BrokenFiles(s) == BrokenFiles(r)
      && SizeMismatches(s.db) == SizeMismatches(r.db)
      && (forall f :: f in r.db.narFiles ==> SuspectOf(s.db, f) == SuspectOf(r.db, f))
  {
    var s := r.(db := StampFiles(r.db, files, now));
    StampOnlyStamps(r, files, now);
    PruningShrinksIssues(r, s);
    PruningShrinksIssues(s, r);
  }

  lemma StampOnlyStamps(r: Repo, files: set<Id>, now: nat)
    requires Consistent(r.db)
    ensures var s := r.(db := StampFiles(r.db, files, now));
      && Prunes(r, s) && Prunes(s, r)
      && (forall k :: FilesWithKey(s.db, k) == FilesWithKey(r.db, k))
  {}

  // ---------------------------------------------------------------- what a repair spares

  /**
   Findings from any earlier state: ids are never used again and keys never change, so a listed row that
   still exists still has its listed key.
   */
  ghost predicate NamesFile(t: Tables, f: Findings, file: Id, key: NarKey) {
    forall s :: s in f.brokenFiles + f.mismatchedFiles && s.key == key && s.id in t.narFiles ==> s.id == file
  }

  /** Listed as missing, and the re-check made just before the delete still finds no whole file. */
  ghost predicate CondemnedAsMissing(nars: set<NarKey>, suspects: seq<Suspect>, key: NarKey) {
    key !in nars && exists s :: s in suspects && s.key == key
  }

  /** Listed as broken, and the re-check, of the listed id against the listed total_chunks, still fails. */
  ghost predicate CondemnedAsBroken(r: Repo, suspects: seq<Suspect>, key: NarKey) {
    exists s :: s in suspects && s.key == key && ChunksBroken(r, s.id, s.totalChunks)
  }

  ghost predicate Condemned(r: Repo, f: Findings, file: Id)
    requires file in r.db.narFiles
  {
    || CondemnedAsMissing(r.nars, f.missingFiles, r.db.narFiles[file].key)
    || CondemnedAsBroken(r, f.brokenFiles, r.db.narFiles[file].key)
  }

  lemma CascadeSpares(t: Tables, keys: set<NarKey>, l: Link)
    requires Consistent(t) && l in t.links
    ensures l in DeleteFilesAndInfos(t, FilesWithKeys(t, keys)).links <==> t.narFiles[l.file].key !in keys
  {
    var u := DeleteFiles(t, FilesWithKeys(t, keys));
    if t.narFiles[l.file].key !in keys {
      assert l in u.links && l.info in LinkedInfos(u);
    }
  }

  lemma LinkPassesSpare(r: Repo, f: Findings, l: Link)
    requires Consistent(r.db) && l in r.db.links
    ensures l in RepairLinks(r, f).db.links
  {
    assert l.file in FilesOf(r.db, l.info);
    var t := DropBareInfos(r.db, f.bareInfos);
    assert l in t.links;
    var key := t.narFiles[l.file].key;
    assert l.file in FilesWithKey(t, key) * LinkedFiles(t);
  }

  lemma MissingPassSpares(r: Repo, suspects: seq<Suspect>, l: Link)
    requires Consistent(r.db) && l in r.db.links
    ensures l in DropMissingFiles(r, suspects).db.links <==>
            !CondemnedAsMissing(r.nars, suspects, r.db.narFiles[l.file].key)
  {
    CascadeSpares(r.db, set s | s in suspects && s.key !in r.nars :: s.key, l);
  }

  lemma BrokenPassSpares(r: Repo, suspects: seq<Suspect>, l: Link)
    requires Consistent(r.db) && l in r.db.links
    ensures l in DropBrokenFiles(r, suspects).db.links <==>
            !CondemnedAsBroken(r, suspects, r.db.narFiles[l.file].key)
  {
    CascadeSpares(r.db, set s | s in suspects && ChunksBroken(r, s.id, s.totalChunks) :: s.key, l);
  }

  lemma MismatchPassSpares(r: Repo, suspects: seq<Suspect>, l: Link)
    requires Consistent(r.db) && l in r.db.links && l.file !in SizeMismatches(r.db)
    requires forall s :: s in suspects && s.key == r.db.narFiles[l.file].key && s.id in r.db.narFiles ==> s.id == l.file
    ensures l in DropMismatchedFiles(r, suspects).db.links
  {
    CascadeSpares(r.db, set s | s in suspects && s.id in SizeMismatches(r.db) :: s.key, l);
  }

  lemma ServableIsNotMismatched(r: Repo, file: Id)
    requires Servable(r, file)
    ensures file !in SizeMismatches(r.db)
  {}

  /**
   A linked, servable NAR survives a repair exactly when the findings do not condemn it, whatever else
   they list and however its chunks are shared. Findings may come from any earlier state.
   */
  lemma ServableNarSurvivesIff(r: Repo, f: Findings, l: Link)
    requires Consistent(r.db) && l in r.db.links && Servable(r, l.file)
    requires NamesFile(r.db, f, l.file, r.db.narFiles[l.file].key)
    ensures l in Repair(r, f).db.links <==> !Condemned(r, f, l.file)
  {
    var r4 := RepairWholeFiles(r, f);
    WholeFilePassesPrune(r, f);
    WholeFilePassesSpare(r, f, l);
    if l in r4.db.links {
      ChunkPassesSpare(r, r4, f, l);
    } else {
      ChunkPassesPrune(r4, f);
    }
  }

  lemma WholeFilePassesSpare(r: Repo, f: Findings, l: Link)
    requires Consistent(r.db) && l in r.db.links
    ensures l in RepairWholeFiles(r, f).db.links <==>
            !CondemnedAsMissing(r.nars, f.missingFiles, r.db.narFiles[l.file].key)
  {
    var r2 := RepairLinks(r, f);
    LinkPassesSpare(r, f, l);
    assert r2.db.narFiles[l.file] == r.db.narFiles[l.file];
    MissingPassSpares(r2, f.missingFiles, l);
  }

  lemma NoFileNoRows(t: Tables, id: Id)
    requires Consistent(t) && id !in t.narFiles
    ensures ChunksFrom(t, id, 0) == []
  {
    assert ChunkIndices(t, id, 0) == {};
  }

  /** Earlier passes do not change what the re-check of a finding about this NAR sees. */
  lemma RecheckIsTheSame(r: Repo, r5: Repo, f: Findings, file: Id)
    requires Consistent(r.db) && Prunes(r, r5) && r5.chunkFiles == r.chunkFiles && file in r5.db.narFiles
    requires NamesFile(r.db, f, file, r.db.narFiles[file].key)
    ensures CondemnedAsBroken(r5, f.brokenFiles, r5.db.narFiles[file].key) <==>
            CondemnedAsBroken(r, f.brokenFiles, r.db.narFiles[file].key)
  {
    PruningKeepsRows(r, r5, file);
    forall s | s in f.brokenFiles && s.key == r.db.narFiles[file].key
      ensures ChunksBroken(r5, s.id, s.totalChunks) <==> ChunksBroken(r, s.id, s.totalChunks)
    {
      if s.id !in r.db.narFiles {
        NoFileNoRows(r.db, s.id);
        NoFileNoRows(r5.db, s.id);
      }
    }
  }

  lemma ChunkPassesSpare(r: Repo, r4: Repo, f: Findings, l: Link)
    requires Consistent(r.db) && Prunes(r, r4) && r4.chunkFiles == r.chunkFiles
    requires l in r4.db.links && Servable(r, l.file)
    requires NamesFile(r.db, f, l.file, r.db.narFiles[l.file].key)
    ensures l in RepairChunks(r4, f).db.links <==>
            !CondemnedAsBroken(r, f.brokenFiles, r.db.narFiles[l.file].key)
  {
    var r5 := r4.(db := DropOrphanChunks(r4.db, f.orphanChunks));
    OrphanChunkPassPrunes(r4, f.orphanChunks);
    PrunesTransitive(r, r4, r5);
    RecheckIsTheSame(r, r5, f, l.file);
    BrokenPassSpares(r5, f.brokenFiles, l);
    var r6 := DropBrokenFiles(r5, f.brokenFiles);
    BrokenPassPrunes(r5, f.brokenFiles);
    PrunesTransitive(r, r5, r6);
    MismatchPassPrunes(r6, f.mismatchedFiles);
    if l in r6.db.links {
      PruningKeepsServable(r, r6, l.file);
      ServableIsNotMismatched(r6, l.file);
      MismatchPassSpares(r6, f.mismatchedFiles, l);
    }
  }

  /** Findings drawn from the state they are applied to condemn no servable NAR. */
  lemma SoundFindingsCondemnNothing(r: Repo, f: Findings, file: Id)
    requires Consistent(r.db) && Sound(r, f) && Servable(r, file)
    ensures NamesFile(r.db, f, file, r.db.narFiles[file].key) && !Condemned(r, f, file)
  {}

  /** What a round keeps of a NAR that can be served. */
  ghost predicate Kept(a: Repo, b: Repo, l: Link) {
    && l in b.db.links && l.info in a.db.narinfos && l.info in b.db.narinfos
    && b.db.narinfos[l.info] == a.db.narinfos[l.info]
    && Servable(a, l.file) && Servable(b, l.file)
    && SameFile(b.db.narFiles[l.file], a.db.narFiles[l.file])
    && ChunksFrom(b.db, l.file, 0) == ChunksFrom(a.db, l.file, 0)
    && (forall h :: h in ChunksFrom(a.db, l.file, 0) && h in a.chunkFiles ==> h in b.chunkFiles)
  }

  lemma PruningKeeps(a: Repo, b: Repo, l: Link)
    requires Consistent(a.db) && Prunes(a, b) && l in b.db.links && Servable(a, l.file)
    ensures Kept(a, b, l)
  {
    PruningKeepsRows(a, b, l.file);
    PruningKeepsServable(a, b, l.file);
    var rows := ChunksFrom(b.db, l.file, 0);
    var q := Ascending(ChunkIndices(b.db, l.file, 0));
    forall h | h in rows && h in a.chunkFiles
      ensures h in b.chunkFiles
    {
      var i :| 0 <= i < |rows| && rows[i] == h;
      assert q[i] in ChunkIndices(b.db, l.file, 0);
    }
  }

  lemma StampPrunes(r: Repo, now: nat)
    requires Consistent(r.db)
    ensures Prunes(r, Stamp(r, now))
  {}

  /** One round keeps every servable NAR, its narinfo, its chunk rows and its bytes. */
  lemma ServableNarSurvivesRound(r: Repo, r': Repo, now: nat, f: Findings, l: Link)
    requires Consistent(r.db) && Round(r, r', now, f)
    requires l in r.db.links && Servable(r, l.file)
    ensures Consistent(r'.db) && Kept(r, r', l)
  {
    var s := Stamp(r, now);
    StampPrunes(r, now);
    PruningKeepsServable(r, s, l.file);
    SoundFindingsCondemnNothing(s, f, l.file);
    ServableNarSurvivesIff(s, f, l);
    RepairPrunes(s, f);
    if !NoIssues(f) {
      PrunesTransitive(r, s, r');
    }
    PruningKeeps(r, r', l);
  }

  /** Any number of rounds, oldest first. */
  datatype History = Start(first: Repo) | Then(past: History, now: nat, findings: Findings, latest: Repo)

  function Initial(h: History): Repo { if h.Start? then h.first else Initial(h.past) }

  function Latest(h: History): Repo { if h.Start? then h.first else h.latest }

  ghost predicate Rounds(h: History) {
    h.Then? ==> Rounds(h.past) && Round(Latest(h.past), h.latest, h.now, h.findings)
  }

  /** ... and so does any number of rounds. */
  lemma {:induction false} ServableNarSurvivesRounds(h: History, l: Link)
    requires Rounds(h) && Consistent(Initial(h).db)
    requires l in Initial(h).db.links && Servable(Initial(h), l.file)
    ensures Consistent(Latest(h).db) && Kept(Initial(h), Latest(h), l)
  {
    if h.Start? {
      KeptReflexive(h.first, l);
    } else {
      ServableNarSurvivesRounds(h.past, l);
      KeptThroughRound(Initial(h), Latest(h.past), h.latest, h.now, h.findings, l);
    }
  }

  lemma KeptThroughRound(a: Repo, b: Repo, c: Repo, now: nat, f: Findings, l: Link)
    requires Consistent(b.db) && Kept(a, b, l) && Round(b, c, now, f)
    ensures Consistent(c.db) && Kept(a, c, l)
  {
    ServableNarSurvivesRound(b, c, now, f, l);
    KeptTransitive(a, b, c, l);
  }

  lemma KeptReflexive(r: Repo, l: Link)
    requires Consistent(r.db) && l in r.db.links && Servable(r, l.file)
    ensures Kept(r, r, l)
  {}

  lemma KeptTransitive(a: Repo, b: Repo, c: Repo, l: Link)
    requires Kept(a, b, l) && Kept(b, c, l)
    ensures Kept(a, c, l)
  {}
}
